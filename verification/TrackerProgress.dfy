/** How far the tracker has come: every pass, whatever part of the body it goes by, only moves sections on,
    and there is an end to that. */
module TrackerProgress {
  import opened TestBodies
  import opened TrackerModel
  import opened TrackerProofs
  import opened TrackerTheorems
  import opened KnownSections

  function Rank(s: States, q: Path): nat {
    match Find(s, q)
    case Unknown => 0
    case Known(NotStarted) => 1
    case Known(Executing) => 2
    case Known(ExecutingChildren) => 3
    case Known(Completed) => 4
  }

  /** No section below `p` goes back. */
  ghost predicate Advances(s: States, s': States, p: Path) {
    forall q: Path | p < q :: Rank(s, q) <= Rank(s', q)
  }

  ghost predicate SameOutside(s: States, s': States, p: Path) {
    forall q: Path | !(p < q) :: Find(s, q) == Find(s', q)
  }

  lemma AdvancesOn(s: States, s': States, s'': States, p: Path)
    requires Advances(s, s', p) && Advances(s', s'', p) && SameOutside(s, s', p) && SameOutside(s', s'', p)
    ensures Advances(s, s'', p) && SameOutside(s, s'', p)
  {
  }

  /** A pass below a section moves the sections there on and touches no other. */
  lemma {:induction false} EagerAdvances(t: Tracker, b: Body)
    ensures Advances(t.states, Eager(t, b).tracker.states, t.current)
    ensures SameOutside(t.states, Eager(t, b).tracker.states, t.current)
    decreases b
  {
    hide Rank, Advances, SameOutside;
    if b.Section? {
      if Enters(t, b.key) {
        var r := Eager(Enter(t, b.key), b.inner);
        var l := Leave(r.tracker);
        EagerAdvances(Enter(t, b.key), b.inner);
        SectionAdvances(t, b.key, r.tracker);
        if !r.threw {
          EagerAdvances(l, b.next);
          AdvancesOn(t.states, l.states, Eager(l, b.next).tracker.states, t.current);
        }
      } else {
        var a := Acquire(t, b.key);
        AcquireAdvances(t, b.key);
        EagerAdvances(a, b.next);
        AdvancesOn(t.states, a.states, Eager(a, b.next).tracker.states, t.current);
      }
    } else {
      NothingAdvances(t.states, t.current);
    }
  }

  lemma NothingAdvances(s: States, p: Path)
    ensures Advances(s, s, p) && SameOutside(s, s, p)
  {
  }

  lemma AcquireAdvances(t: Tracker, key: Key)
    ensures Advances(t.states, Acquire(t, key).states, t.current)
    ensures SameOutside(t.states, Acquire(t, key).states, t.current)
  {
    assert t.current < t.current + [key];
  }

  lemma SectionAdvances(t: Tracker, key: Key, r: Tracker)
    requires Enters(t, key) && r.current == t.current + [key]
    requires Advances(Enter(t, key).states, r.states, r.current)
    requires SameOutside(Enter(t, key).states, r.states, r.current)
    ensures Advances(t.states, Leave(r).states, t.current) && SameOutside(t.states, Leave(r).states, t.current)
    ensures Leave(r).current == t.current
  {
    hide LeftState;
    var child, e, l := t.current + [key], Enter(t, key), Leave(r);
    assert t.current < child && !(child < child);
    LeftIsFar(r.states, child);
    forall q: Path | t.current < q ensures Rank(t.states, q) <= Rank(l.states, q) {
      if q == child {
        assert Find(e.states, child) == Find(r.states, child);
      } else if child < q {
        assert Rank(e.states, q) <= Rank(r.states, q);
      } else {
        assert Find(e.states, q) == Find(r.states, q);
      }
    }
    forall q: Path | !(t.current < q) ensures Find(t.states, q) == Find(l.states, q) {
      assert q != child && !(child < q);
      assert Find(e.states, q) == Find(r.states, q);
    }
  }

  lemma LeftIsFar(s: States, p: Path)
    ensures LeftState(s, p) == ExecutingChildren || LeftState(s, p) == Completed
  {
  }

  /** So does a whole pass of any course. */
  lemma PassAdvances(t: Tracker, course: Body)
    requires [] in t.states
    ensures Advances(t.states, RunOnce(t, course).states, [])
  {
    hide Rank, RunOnce, Eager, LeftState, Invoke;
    var t0 := EnterTestCase(t);
    var e := Eager(t0, course).tracker;
    EagerAdvances(t0, course);
    PassIsEager(t, course);
    var root: Path := [];
    forall q: Path | root < q ensures Rank(t.states, q) <= Rank(RunOnce(t, course).states, q) {
      SameRank(t.states, t0.states, q);
      SameRank(e.states, RunOnce(t, course).states, q);
      assert Rank(t0.states, q) <= Rank(e.states, q);
    }
  }

  lemma SameRank(s: States, s': States, q: Path)
    requires Find(s, q) == Find(s', q)
    ensures Rank(s, q) == Rank(s', q)
  {
  }

  // ---------- a measure of it ----------

  /** The ranks of the sections of `b` below `p`. */
  function Progress(s: States, p: Path, b: Body): nat
    decreases b
  {
    if b.Section? then
      Rank(s, p + [b.key]) + Progress(s, p + [b.key], b.inner) + Progress(s, p, b.next)
    else 0
  }

  lemma {:induction false} ProgressBound(s: States, p: Path, b: Body)
    ensures Progress(s, p, b) <= 4 * SectionCount(b)
    decreases b
  {
    if b.Section? {
      ProgressBound(s, p + [b.key], b.inner);
      ProgressBound(s, p, b.next);
    }
  }

  lemma {:induction false} ProgressGrows(s: States, s': States, p: Path, b: Body)
    requires Advances(s, s', p)
    ensures Progress(s, p, b) <= Progress(s', p, b)
    ensures Progress(s, p, b) == Progress(s', p, b) ==>
              forall rel | InBody(b, rel) :: Rank(s, p + rel) == Rank(s', p + rel)
    decreases b
  {
    hide Rank;
    if b.Section? {
      var child := p + [b.key];
      AdvancesBelow(s, s', p, b.key);
      ProgressGrows(s, s', child, b.inner);
      ProgressGrows(s, s', p, b.next);
      if Progress(s, p, b) == Progress(s', p, b) {
        forall rel | InBody(b, rel) ensures Rank(s, p + rel) == Rank(s', p + rel) {
          if rel[0] == b.key && rel[1..] == [] {
            assert p + rel == child;
          } else if rel[0] == b.key && InBody(b.inner, rel[1..]) {
            assert p + rel == child + rel[1..];
          }
        }
      }
    }
  }

  lemma AdvancesBelow(s: States, s': States, p: Path, key: Key)
    requires Advances(s, s', p)
    ensures Advances(s, s', p + [key]) && Rank(s, p + [key]) <= Rank(s', p + [key])
  {
    assert p < p + [key];
    forall q: Path | p + [key] < q ensures Rank(s, q) <= Rank(s', q) {
      assert p < q;
    }
  }

  /** The same but for the state of the test case itself. */
  ghost predicate SameSections(s: States, s': States) {
    forall q: Path | q != [] :: Find(s, q) == Find(s', q)
  }

  /** A pass that makes no progress leaves all sections as they were. */
  lemma NoProgress(s: States, s': States, b: Body)
    requires Fits(s, [], b) && Fits(s', [], b) && Advances(s, s', [])
    requires Progress(s, [], b) == Progress(s', [], b)
    ensures SameSections(s, s')
  {
    hide Progress;
    ProgressGrows(s, s', [], b);
    var root: Path := [];
    forall q: Path | q != [] ensures Find(s, q) == Find(s', q) {
      assert root < q && root + q == q && q[|root|..] == q;
      if q in s || q in s' {
        assert InBody(b, q);
      }
      RankIsState(s, s', q);
    }
  }

  lemma RankIsState(s: States, s': States, q: Path)
    ensures Rank(s, q) == Rank(s', q) <==> Find(s, q) == Find(s', q)
  {
  }
}
