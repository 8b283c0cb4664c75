/** What the tracker knows after any number of passes, for every body. */
module TrackerProofs {
  import opened Basics
  import opened TestBodies
  import opened TrackerModel

  datatype Known = Unknown | Known(state: RunState)

  function Find(s: States, q: Path): Known {
    if q in s then Known(s[q]) else Unknown
  }

  // ---------- frames ----------

  ghost predicate Bare(s: States, p: Path) {
    forall q | q in s :: !(p < q)
  }

  /** `s` and `s'` agree on everything at or below `p`. */
  ghost predicate Agree(s: States, s': States, p: Path) {
    forall q: Path | p <= q :: Find(s, q) == Find(s', q)
  }

  /** Only paths at or below `p` changed. */
  ghost predicate Within(s: States, s': States, p: Path) {
    forall q: Path | !(p <= q) :: Find(s, q) == Find(s', q)
  }

  /** Only paths at or below a child of `p` named in `keys` changed. */
  ghost predicate Touches(s: States, s': States, p: Path, keys: set<Key>) {
    forall q: Path | Find(s, q) != Find(s', q) :: p < q && q[|p|] in keys
  }

  lemma TouchedElsewhere(s: States, s': States, p: Path, keys: set<Key>, key: Key)
    requires Touches(s, s', p, keys)
    requires key !in keys
    ensures Agree(s, s', p + [key])
  {
    forall q: Path | p + [key] <= q ensures Find(s, q) == Find(s', q) {
      assert q[|p|] == (p + [key])[|p|];
    }
  }

  lemma PathStep(p: Path, key: Key, rel: Path)
    ensures p + [key] + rel == p + ([key] + rel)
    ensures p + [key] <= p + ([key] + rel)
  {
  }

  lemma WithinTouches(s: States, s': States, p: Path, key: Key)
    requires Within(s, s', p + [key])
    ensures Touches(s, s', p, {key})
  {
    forall q: Path | Find(s, q) != Find(s', q) ensures p < q && q[|p|] in {key} {
      assert p + [key] <= q;
      assert q[|p|] == (p + [key])[|p|];
    }
  }

  // ---------- the state of a section after `k` of its passes ----------

  ghost predicate SectionAt(s: States, p: Path, b: Body, k: nat)
    decreases b, 2
  {
    && p in s
    && if k == 0 then s[p] == NotStarted && Bare(s, p)
       else s[p] == (if k < RunCount(b) then ExecutingChildren else Completed) && ChildrenAt(s, p, b, k)
  }

  /** Known children are children of the body; if the first one always cuts the pass short,
      it is the only one ever known. */
  ghost predicate ChildrenAt(s: States, p: Path, b: Body, k: nat)
    decreases b, 1
  {
    && (forall q | q in s && p < q :: q[|p|] in Keys(b))
    && (b.Section? ==>
          if Interrupted(b.inner) then
            && SectionAt(s, p + [b.key], b.inner, Min(k, RunCount(b.inner)))
            && (forall q | q in s && p < q :: q[|p|] == b.key)
          else ForestAt(s, p, b, k))
  }

  /** The siblings of `b` below `p`, with `k` of their passes done in order. */
  ghost predicate ForestAt(s: States, p: Path, b: Body, k: nat)
    decreases b, 0
  {
    b.Section? ==>
      var n := Min(k, RunCount(b.inner));
      && SectionAt(s, p + [b.key], b.inner, n)
      && ForestAt(s, p, b.next, k - n)
  }

  /** As above, except that a section not yet run may also be unknown. */
  ghost predicate SectionReady(s: States, p: Path, b: Body, k: nat) {
    SectionAt(s, p, b, k) || (k == 0 && p !in s && Bare(s, p))
  }

  ghost predicate ForestReady(s: States, p: Path, b: Body, k: nat)
    decreases b
  {
    b.Section? ==>
      var n := Min(k, RunCount(b.inner));
      && SectionReady(s, p + [b.key], b.inner, n)
      && ForestReady(s, p, b.next, k - n)
  }

  lemma {:induction false} AtIsReady(s: States, p: Path, b: Body, k: nat)
    requires ForestAt(s, p, b, k)
    ensures ForestReady(s, p, b, k)
    decreases b
  {
    if b.Section? {
      AtIsReady(s, p, b.next, k - Min(k, RunCount(b.inner)));
    }
  }

  lemma {:induction false} SectionFrame(s: States, s': States, p: Path, b: Body, k: nat)
    requires SectionAt(s, p, b, k) && Agree(s, s', p)
    ensures SectionAt(s', p, b, k)
    decreases b, 1
  {
    assert Find(s, p) == Find(s', p);
    forall q | q in s' && p < q ensures q in s {
      assert Find(s, q) == Find(s', q);
    }
    if k > 0 && b.Section? {
      if Interrupted(b.inner) {
        AgreeBelow(s, s', p, b.key);
        SectionFrame(s, s', p + [b.key], b.inner, Min(k, RunCount(b.inner)));
      } else {
        ForestFrame(s, s', p, b, k);
      }
    }
  }

  lemma AgreeBelow(s: States, s': States, p: Path, key: Key)
    requires Agree(s, s', p)
    ensures Agree(s, s', p + [key])
  {
    forall q: Path | p + [key] <= q ensures Find(s, q) == Find(s', q) {
      assert p <= p + [key];
    }
  }

  lemma {:induction false} ForestFrame(s: States, s': States, p: Path, b: Body, k: nat)
    requires ForestAt(s, p, b, k)
    requires forall key | key in Keys(b) :: Agree(s, s', p + [key])
    ensures ForestAt(s', p, b, k)
    decreases b, 0
  {
    if b.Section? {
      var n := Min(k, RunCount(b.inner));
      SectionFrame(s, s', p + [b.key], b.inner, n);
      ForestFrame(s, s', p, b.next, k - n);
    }
  }

  lemma ReadyFrame(s: States, s': States, p: Path, b: Body, k: nat)
    requires SectionReady(s, p, b, k) && Agree(s, s', p)
    ensures SectionReady(s', p, b, k)
  {
    if SectionAt(s, p, b, k) {
      SectionFrame(s, s', p, b, k);
    } else {
      assert Find(s, p) == Find(s', p);
      forall q | q in s' && p < q ensures q in s {
        assert Find(s, q) == Find(s', q);
      }
    }
  }

  lemma {:induction false} ForestReadyFrame(s: States, s': States, p: Path, b: Body, k: nat)
    requires ForestReady(s, p, b, k)
    requires forall key | key in Keys(b) :: Agree(s, s', p + [key])
    ensures ForestReady(s', p, b, k)
    decreases b
  {
    if b.Section? {
      var n := Min(k, RunCount(b.inner));
      ReadyFrame(s, s', p + [b.key], b.inner, n);
      ForestReadyFrame(s, s', p, b.next, k - n);
    }
  }

  // ---------- one pass ----------

  ghost function Trace(p: Path, rel: Path): seq<Event>
    decreases |rel|
  {
    if rel == [] then []
    else [Entered(p + [rel[0]])] + Trace(p + [rel[0]], rel[1..]) + [Left(p + [rel[0]])]
  }

  lemma TraceStep(p: Path, key: Key, rel: Path)
    ensures Trace(p, [key] + rel) == [Entered(p + [key])] + Trace(p + [key], rel) + [Left(p + [key])]
  {
    assert ([key] + rel)[1..] == rel;
  }

  /** Once a section has been completed in a pass, the remaining siblings only become known. */
  lemma {:induction false} SkipForest(t: Tracker, b: Body, k: nat)
    requires Distinct(b) && t.completedOne
    requires ForestReady(t.states, t.current, b, k)
    ensures var r := Eager(t, b);
            && r.threw == Ends(b)
            && r.tracker == t.(states := r.tracker.states)
            && ForestAt(r.tracker.states, t.current, b, k)
            && Touches(t.states, r.tracker.states, t.current, Keys(b))
    decreases b
  {
    if b.Section? {
      var p := t.current;
      var a := Acquire(t, b.key);
      var n := Min(k, RunCount(b.inner));
      assert SectionAt(a.states, p + [b.key], b.inner, n);
      assert Within(t.states, a.states, p + [b.key]);
      WithinTouches(t.states, a.states, p, b.key);
      forall key | key in Keys(b.next) ensures Agree(t.states, a.states, p + [key]) {
        TouchedElsewhere(t.states, a.states, p, {b.key}, key);
      }
      ForestReadyFrame(t.states, a.states, p, b.next, k - n);
      SkipForest(a, b.next, k - n);
      var s' := Eager(a, b.next).tracker.states;
      TouchedElsewhere(a.states, s', p, Keys(b.next), b.key);
      SectionFrame(a.states, s', p + [b.key], b.inner, n);
    }
  }

  /** With every sibling's passes done, a pass changes nothing. */
  lemma {:induction false} CompletedForest(t: Tracker, b: Body)
    requires ForestReady(t.states, t.current, b, ForestCount(b))
    ensures Eager(t, b) == Outcome(t, Ends(b))
    decreases b
  {
    if b.Section? {
      CompletedForest(t, b.next);
    }
  }

  lemma {:induction false} AllDone(s: States, p: Path, b: Body)
    requires ForestAt(s, p, b, ForestCount(b))
    ensures forall key | key in Keys(b) :: p + [key] in s && s[p + [key]] == Completed
    decreases b
  {
    if b.Section? {
      AllDone(s, p, b.next);
    }
  }

  lemma {:induction false} SomeOpen(s: States, p: Path, b: Body, k: nat) returns (key: Key)
    requires ForestAt(s, p, b, k) && k < ForestCount(b)
    ensures key in Keys(b) && p + [key] in s && s[p + [key]] != Completed
    decreases b
  {
    if k < RunCount(b.inner) {
      key := b.key;
    } else {
      key := SomeOpen(s, p, b.next, k - RunCount(b.inner));
    }
  }

  // ---------- leaving a section ----------

  /** A section with `k` passes done has only completed children exactly when that was its
      last pass. */
  lemma ChildrenDone(s: States, p: Path, b: Body, k: nat)
    requires 0 < k <= RunCount(b) && ChildrenAt(s, p, b, k)
    ensures ChildrenCompleted(s, p) <==> k == RunCount(b)
  {
    forall key | p + [key] in s ensures b.Section? && key in Keys(b) {
      assert p < p + [key] && (p + [key])[|p|] == key;
    }
    if b.Section? {
      if Interrupted(b.inner) {
        forall key | p + [key] in s ensures key == b.key {
          assert p < p + [key] && (p + [key])[|p|] == key;
        }
        assert p + [b.key] in s;
      } else if k == RunCount(b) {
        AllDone(s, p, b);
      } else {
        var key := SomeOpen(s, p, b, k);
      }
    }
  }

  lemma ChildrenFrame(s: States, s': States, p: Path, b: Body, k: nat)
    requires k > 0 && ChildrenAt(s, p, b, k)
    requires forall q: Path | p < q :: Find(s, q) == Find(s', q)
    ensures ChildrenAt(s', p, b, k)
  {
    forall q | q in s' && p < q ensures q in s {
      assert Find(s, q) == Find(s', q);
    }
    forall key ensures Agree(s, s', p + [key]) {
      forall q: Path | p + [key] <= q ensures Find(s, q) == Find(s', q) {
        assert p < p + [key];
      }
    }
    if b.Section? {
      if Interrupted(b.inner) {
        SectionFrame(s, s', p + [b.key], b.inner, Min(k, RunCount(b.inner)));
      } else {
        ForestFrame(s, s', p, b, k);
      }
    }
  }

  lemma {:induction false} UnknownReady(s: States, p: Path, b: Body)
    requires forall q | q in s && p < q :: q[|p|] !in Keys(b)
    ensures ForestReady(s, p, b, 0)
    decreases b
  {
    if b.Section? {
      var child := p + [b.key];
      assert child[|p|] == b.key;
      UnknownReady(s, p, b.next);
    }
  }

  lemma ChildrenReady(s: States, p: Path, b: Body, k: nat)
    requires Distinct(b) && k < RunCount(b)
    requires if k == 0 then Bare(s, p) else ChildrenAt(s, p, b, k)
    ensures ForestReady(s, p, b, k)
  {
    if k == 0 {
      UnknownReady(s, p, b);
    } else if b.Section? {
      if Interrupted(b.inner) {
        UnknownReady(s, p, b.next);
      } else {
        AtIsReady(s, p, b, k);
      }
    }
  }

  // ---------- one pass over siblings, one pass of a section ----------

  /** What pass `k` over the siblings of `b` does to the known sections below `p`. */
  ghost predicate ForestStep(s: States, s': States, p: Path, b: Body, k: nat)
    requires k < ForestCount(b)
  {
    var run := ForestRun(b, k);
    && Touches(s, s', p, Keys(b))
    && ForestReady(s', p, b, k + 1)
    && (ForestAt(s, p, b, k) || !run.threw ==> ForestAt(s', p, b, k + 1))
    && run.path != [] && (run.threw ==> Within(s, s', p + [run.path[0]]))
    && Fulfils(s, s', p + run.path)
  }

  /** What pass `k` of the section at `p` does to it. */
  ghost predicate SectionStep(s: States, s': States, p: Path, b: Body, k: nat)
    requires k < RunCount(b)
  {
    && Within(s, s', p)
    && SectionAt(s', p, b, k + 1)
    && Fulfils(s, s', p + SectionRun(b, k).path)
  }

  /** The section at `q` was not started before and is completed now. */
  ghost predicate Fulfils(s: States, s': States, q: Path) {
    Find(s, q) in {Unknown, Known(NotStarted)} && Find(s', q) == Known(Completed)
  }

  ghost predicate ForestPass(t: Tracker, b: Body, k: nat)
    requires k < ForestCount(b)
  {
    var r, run := Eager(t, b), ForestRun(b, k);
    && r.threw == (run.threw || Ends(b))
    && r.tracker.completedOne
    && r.tracker.log == t.log + Trace(t.current, run.path)
    && ForestStep(t.states, r.tracker.states, t.current, b, k)
  }

  ghost predicate SectionPass(t: Tracker, key: Key, b: Body, k: nat)
    requires k < RunCount(b)
  {
    var r := Eager(Enter(t, key), b);
    var l := Leave(r.tracker);
    && Enters(t, key)
    && r.threw == SectionRun(b, k).threw
    && l.log == t.log + Trace(t.current, [key] + SectionRun(b, k).path)
    && SectionStep(t.states, l.states, t.current + [key], b, k)
  }

  /** Pass `k` over the siblings of `b`. */
  lemma {:induction false} RunForest(t: Tracker, b: Body, k: nat)
    requires Distinct(b) && !t.completedOne
    requires ForestReady(t.states, t.current, b, k) && k < ForestCount(b)
    ensures ForestPass(t, b, k)
    decreases b, 0
  {
    if k < RunCount(b.inner) {
      RunSection(t, b.key, b.inner, k);
      FirstSibling(t, b, k);
    } else {
      RunForest(t, b.next, k - RunCount(b.inner));
      LaterStep(t.states, Eager(t, b.next).tracker.states, t.current, b, k);
    }
  }

  lemma FirstUntouched(s: States, s': States, p: Path, b: Body, n: nat)
    requires Distinct(b) && b.Section?
    requires Touches(s, s', p, Keys(b.next))
    requires SectionReady(s, p + [b.key], b.inner, n) && n > 0
    ensures SectionAt(s', p + [b.key], b.inner, n)
  {
    TouchedElsewhere(s, s', p, Keys(b.next), b.key);
    SectionFrame(s, s', p + [b.key], b.inner, n);
  }

  lemma RestUntouched(s: States, s': States, p: Path, b: Body)
    requires Distinct(b) && b.Section?
    requires Within(s, s', p + [b.key])
    requires ForestReady(s, p, b.next, 0)
    ensures ForestReady(s', p, b.next, 0)
    ensures ForestAt(s, p, b.next, 0) ==> ForestAt(s', p, b.next, 0)
  {
    WithinTouches(s, s', p, b.key);
    forall key | key in Keys(b.next) ensures Agree(s, s', p + [key]) {
      TouchedElsewhere(s, s', p, {b.key}, key);
    }
    ForestReadyFrame(s, s', p, b.next, 0);
    if ForestAt(s, p, b.next, 0) {
      ForestFrame(s, s', p, b.next, 0);
    }
  }

  lemma WithinChild(s: States, s': States, p: Path, b: Body)
    requires b.Section? && Within(s, s', p + [b.key])
    ensures Touches(s, s', p, Keys(b))
  {
    WithinTouches(s, s', p, b.key);
  }

  lemma TouchesBoth(s: States, m: States, s': States, p: Path, b: Body)
    requires b.Section? && Within(s, m, p + [b.key])
    requires Touches(m, s', p, Keys(b.next))
    ensures Touches(s, s', p, Keys(b))
  {
    WithinTouches(s, m, p, b.key);
    forall q: Path | Find(s, q) != Find(s', q) ensures p < q && q[|p|] in Keys(b) {
      if Find(s, q) != Find(m, q) {
        assert q[|p|] in {b.key};
      } else {
        assert q[|p|] in Keys(b.next);
      }
    }
  }

  lemma ForestRest(s: States, p: Path, b: Body, k: nat, rest: nat)
    requires b.Section? && rest == k - Min(k, RunCount(b.inner))
    requires ForestAt(s, p, b, k)
    ensures ForestAt(s, p, b.next, rest)
  {
  }

  lemma ForestCons(s: States, p: Path, b: Body, k: nat, rest: nat)
    requires b.Section? && rest == k - Min(k, RunCount(b.inner))
    requires SectionAt(s, p + [b.key], b.inner, Min(k, RunCount(b.inner))) && ForestAt(s, p, b.next, rest)
    ensures ForestAt(s, p, b, k)
  {
  }

  lemma ReadyCons(s: States, p: Path, b: Body, k: nat, rest: nat)
    requires b.Section? && rest == k - Min(k, RunCount(b.inner))
    requires SectionAt(s, p + [b.key], b.inner, Min(k, RunCount(b.inner))) && ForestReady(s, p, b.next, rest)
    ensures ForestReady(s, p, b, k)
  {
  }

  lemma LaterAt(s: States, s': States, p: Path, b: Body, k: nat, m: nat)
    requires b.Section? && k == RunCount(b.inner) + m
    requires SectionAt(s', p + [b.key], b.inner, RunCount(b.inner))
    requires ForestAt(s, p, b.next, m) ==> ForestAt(s', p, b.next, m + 1)
    requires ForestAt(s, p, b, k)
    ensures ForestAt(s', p, b, k + 1)
  {
    ForestRest(s, p, b, k, m);
    ForestCons(s', p, b, k + 1, m + 1);
  }

  lemma LaterReady(s: States, s': States, p: Path, b: Body, m: nat)
    requires Distinct(b) && b.Section?
    requires ForestReady(s, p, b, RunCount(b.inner) + m)
    requires Touches(s, s', p, Keys(b.next)) && ForestReady(s', p, b.next, m + 1)
    ensures SectionAt(s', p + [b.key], b.inner, RunCount(b.inner))
    ensures ForestReady(s', p, b, RunCount(b.inner) + m + 1)
  {
    var n := RunCount(b.inner);
    FirstUntouched(s, s', p, b, n);
    ReadyCons(s', p, b, n + m + 1, m + 1);
  }

  lemma LaterStep(s: States, s': States, p: Path, b: Body, k: nat)
    requires Distinct(b) && b.Section?
    requires ForestReady(s, p, b, k) && RunCount(b.inner) <= k < ForestCount(b)
    requires ForestStep(s, s', p, b.next, k - RunCount(b.inner))
    ensures ForestStep(s, s', p, b, k)
  {
    hide ForestReady, ForestAt, SectionAt;
    var m := k - RunCount(b.inner);
    LaterReady(s, s', p, b, m);
    if !ForestRun(b, k).threw {
      ForestCons(s', p, b, k + 1, m + 1);
    } else if ForestAt(s, p, b, k) {
      LaterAt(s, s', p, b, k, m);
    }
  }

  /** The pass ends inside the first sibling. */
  lemma FirstStepThrew(s: States, l: States, p: Path, b: Body, k: nat)
    requires Distinct(b) && b.Section?
    requires ForestReady(s, p, b, k) && k < RunCount(b.inner) && SectionRun(b.inner, k).threw
    requires SectionStep(s, l, p + [b.key], b.inner, k)
    ensures ForestStep(s, l, p, b, k)
  {
    hide Within, Touches, Find, Keys, Fulfils, Bare, ChildrenAt;
    RestUntouched(s, l, p, b);
    PathStep(p, b.key, SectionRun(b.inner, k).path);
    WithinChild(s, l, p, b);
    if ForestAt(s, p, b, k) {
      ForestRest(s, p, b, k, 0);
      ForestCons(l, p, b, k + 1, 0);
    }
  }

  /** The pass goes on after the first sibling, only making the others known. */
  lemma {:induction false} FirstStep(s: States, l: States, s': States, p: Path, b: Body, k: nat)
    requires Distinct(b) && b.Section?
    requires k < RunCount(b.inner) && !SectionRun(b.inner, k).threw
    requires SectionStep(s, l, p + [b.key], b.inner, k)
    requires Touches(l, s', p, Keys(b.next)) && ForestAt(s', p, b.next, 0)
    ensures ForestStep(s, s', p, b, k)
  {
    FirstUntouched(l, s', p, b, k + 1);
    TouchesBoth(s, l, s', p, b);
    TouchedElsewhere(l, s', p, Keys(b.next), b.key);
    PathStep(p, b.key, SectionRun(b.inner, k).path);
    AtIsReady(s', p, b.next, 0);
    ForestCons(s', p, b, k + 1, 0);
  }

  lemma FirstSibling(t: Tracker, b: Body, k: nat)
    requires Distinct(b) && !t.completedOne && b.Section?
    requires ForestReady(t.states, t.current, b, k) && k < RunCount(b.inner)
    requires SectionPass(t, b.key, b.inner, k)
    ensures ForestPass(t, b, k)
  {
    var p, run, n := t.current, ForestRun(b, k), RunCount(b.inner);
    var l := Leave(Eager(Enter(t, b.key), b.inner).tracker);
    if run.threw {
      assert Eager(t, b) == Outcome(l, true);
      FirstStepThrew(t.states, l.states, p, b, k);
    } else {
      assert Eager(t, b) == Eager(l, b.next);
      RestUntouched(t.states, l.states, p, b);
      SkipForest(l, b.next, 0);
      FirstStep(t.states, l.states, Eager(l, b.next).tracker.states, p, b, k);
    }
  }

  /** Pass `k` of the section `key` with body `b`, from entering to leaving it. */
  lemma {:induction false} RunSection(t: Tracker, key: Key, b: Body, k: nat)
    requires Distinct(b) && !t.completedOne
    requires SectionReady(t.states, t.current + [key], b, k) && k < RunCount(b)
    ensures SectionPass(t, key, b, k)
    decreases b, 1
  {
    var p, e := t.current + [key], Enter(t, key);
    EnteredChildren(t, key, b, k);
    if b.Section? {
      ChildrenReady(e.states, p, b, k);
      RunForest(e, b, k);
    }
    FinishSection(t, key, b, k, Eager(e, b).tracker);
  }

  lemma FinishSection(t: Tracker, key: Key, b: Body, k: nat, r: Tracker)
    requires Distinct(b) && !t.completedOne
    requires SectionReady(t.states, t.current + [key], b, k) && k < RunCount(b)
    requires var e := Enter(t, key);
             && r == Eager(e, b).tracker
             && (if k == 0 then Bare(e.states, e.current) else ChildrenAt(e.states, e.current, b, k))
             && (b.Section? ==> k < ForestCount(b) && ForestPass(e, b, k))
    ensures SectionPass(t, key, b, k)
  {
    var p, e := t.current + [key], Enter(t, key);
    PassedChildren(e, b, k);
    LeavePass(t, key, b, k, r);
    SectionFulfils(t.states, e.states, r.states, p, b, k);
  }

  lemma SectionFulfils(s: States, e: States, r: States, p: Path, b: Body, k: nat)
    requires k < RunCount(b) && SectionReady(s, p, b, k)
    requires p in e && forall q: Path | q != p :: Find(s, q) == Find(e, q)
    requires if b.Section? then k < ForestCount(b) && ForestStep(e, r, p, b, k) else r == e
    ensures var l := r[p := LeftState(r, p)];
            && Within(s, l, p)
            && (l[p] == Completed || SectionRun(b, k).path != [] ==> Fulfils(s, l, p + SectionRun(b, k).path))
  {
    var rel := SectionRun(b, k).path;
    if rel == [] {
      EmptyPath(b, k);
      assert p + rel == p;
    } else {
      NestedRun(b, k);
      assert p + rel != p;
    }
  }

  lemma EnteredChildren(t: Tracker, key: Key, b: Body, k: nat)
    requires SectionReady(t.states, t.current + [key], b, k)
    ensures var e := Enter(t, key);
            if k == 0 then Bare(e.states, e.current) else ChildrenAt(e.states, e.current, b, k)
  {
    if k > 0 {
      ChildrenFrame(t.states, Enter(t, key).states, t.current + [key], b, k);
    }
  }

  lemma LeavePass(t: Tracker, key: Key, b: Body, k: nat, r: Tracker)
    requires k < RunCount(b) && r.current == t.current + [key]
    requires ChildrenAt(r.states, r.current, b, k + 1)
    requires r.log == t.log + [Entered(r.current)] + Trace(r.current, SectionRun(b, k).path)
    ensures var l := Leave(r);
            && SectionAt(l.states, r.current, b, k + 1)
            && l.log == t.log + Trace(t.current, [key] + SectionRun(b, k).path)
            && (SectionRun(b, k).path == [] ==> l.states[r.current] == Completed)
  {
    var p, l, rel := r.current, Leave(r), SectionRun(b, k).path;
    ChildrenDone(r.states, p, b, k + 1);
    ChildrenFrame(r.states, l.states, p, b, k + 1);
    TraceStep(t.current, key, rel);
    RegroupFour(t.log, [Entered(p)], Trace(p, rel), [Left(p)]);
    if rel == [] {
      EmptyPath(b, k);
    }
  }

  lemma EmptyPath(b: Body, k: nat)
    requires k < RunCount(b) && SectionRun(b, k).path == []
    ensures !b.Section? && k + 1 == RunCount(b)
  {
    if b.Section? {
      NestedRun(b, k);
    }
  }

  lemma {:induction false} PassedChildren(e: Tracker, b: Body, k: nat)
    requires Distinct(b) && k < RunCount(b)
    requires if k == 0 then Bare(e.states, e.current) else ChildrenAt(e.states, e.current, b, k)
    requires b.Section? ==> k < ForestCount(b) && ForestPass(e, b, k)
    ensures var r, run := Eager(e, b), SectionRun(b, k);
            && r.threw == run.threw
            && ChildrenAt(r.tracker.states, e.current, b, k + 1)
            && r.tracker.log == e.log + Trace(e.current, run.path)
  {
    if b.Section? {
      var p, s' := e.current, Eager(e, b).tracker.states;
      forall q | q in s' && p < q ensures q[|p|] in Keys(b) {
        if Find(e.states, q) == Find(s', q) {
          assert q in e.states;
        }
      }
      NestedRun(b, k);
      if Interrupted(b.inner) {
        forall q | q in s' && p < q ensures q[|p|] == b.key {
          if p + [b.key] <= q {
            assert q[|p|] == (p + [b.key])[|p|];
          } else {
            assert Find(e.states, q) == Find(s', q);
          }
        }
      }
    }
  }
}
