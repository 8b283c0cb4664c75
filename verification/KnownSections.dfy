/** Which sections the tracker can know, whatever part of a test body a pass goes by. */
module KnownSections {
  import opened TestBodies
  import opened TrackerModel
  import opened TrackerProofs
  import opened TrackerTheorems
  import opened SectionResults

  /** `rel` leads from the siblings of `b` to a section. */
  predicate InBody(b: Body, rel: Path)
    decreases b
  {
    && b.Section? && rel != []
    && ((rel[0] == b.key && (rel[1..] == [] || InBody(b.inner, rel[1..]))) || InBody(b.next, rel))
  }

  /** The known sections below `p` are those of the body. */
  ghost predicate Fits(s: States, p: Path, w: Body) {
    forall q | q in s && p < q :: InBody(w, q[|p|..])
  }

  /** `b` is `w` or what follows one of its sections. */
  predicate IsTail(b: Body, w: Body)
    decreases w
  {
    b == w || (w.Section? && IsTail(b, w.next))
  }

  lemma {:induction false} TailOfTail(b: Body, w: Body)
    requires b.Section? && IsTail(b, w)
    ensures IsTail(b.next, w)
    decreases w
  {
    if b != w {
      TailOfTail(b, w.next);
    }
  }

  lemma {:induction false} BodyKey(b: Body, rel: Path)
    requires InBody(b, rel) || LeafAmong(b, rel)
    ensures rel != [] && rel[0] in Keys(b)
    decreases b
  {
    if InBody(b.next, rel) || LeafAmong(b.next, rel) {
      BodyKey(b.next, rel);
    }
  }

  /** Among different siblings a path that begins with a key is decided by the section of that key. */
  lemma {:induction false} TailDecides(b: Body, w: Body, rel: Path)
    requires b.Section? && IsTail(b, w) && Distinct(w) && rel != [] && rel[0] == b.key
    ensures InBody(w, rel) <==> rel[1..] == [] || InBody(b.inner, rel[1..])
    ensures LeafAmong(w, rel) <==> LeafBelow(b.inner, rel[1..])
    ensures Distinct(b.inner)
    decreases w
  {
    if b == w {
      if InBody(w.next, rel) || LeafAmong(w.next, rel) {
        BodyKey(w.next, rel);
      }
    } else {
      TailDecides(b, w.next, rel);
      TailHasKey(b, w.next);
    }
  }

  lemma {:induction false} TailHasKey(b: Body, w: Body)
    requires b.Section? && IsTail(b, w)
    ensures b.key in Keys(w)
    decreases w
  {
    if b != w {
      TailHasKey(b, w.next);
    }
  }

  // ---------- the tracker only knows sections of the body ----------

  lemma FitsBelow(s: States, p: Path, b: Body, w: Body)
    requires Fits(s, p, w) && b.Section? && IsTail(b, w) && Distinct(w)
    ensures Fits(s, p + [b.key], b.inner)
  {
    forall q | q in s && p + [b.key] < q ensures InBody(b.inner, q[|p| + 1..]) {
      var rel := q[|p|..];
      assert p < q && rel[0] == (p + [b.key])[|p|] && rel[1..] == q[|p| + 1..];
      TailDecides(b, w, rel);
    }
  }

  lemma FitsAround(s: States, s': States, p: Path, b: Body, w: Body)
    requires Fits(s, p, w) && b.Section? && IsTail(b, w) && Distinct(w)
    requires Fits(s', p + [b.key], b.inner)
    requires forall q: Path | q in s' && !(p + [b.key] <= q) :: q in s
    ensures Fits(s', p, w)
  {
    forall q | q in s' && p < q ensures InBody(w, q[|p|..]) {
      var rel, child := q[|p|..], p + [b.key];
      if child <= q {
        assert rel[0] == child[|p|] && rel[1..] == q[|p| + 1..];
        TailDecides(b, w, rel);
        assert q != child ==> child < q;
      }
    }
  }

  // ---------- passes that go by a part of the body ----------

  /** `course` is `b`, cut short by an exception here and there. */
  predicate Within(course: Body, b: Body)
    decreases course
  {
    || course.Throw?
    || (course.Done? && b.Done?)
    || (course.Section? && b.Section? && course.key == b.key
        && Within(course.inner, b.inner) && Within(course.next, b.next))
  }

  lemma {:induction false} WithinItself(b: Body)
    ensures Within(b, b)
    decreases b
  {
    if b.Section? {
      WithinItself(b.inner);
      WithinItself(b.next);
    }
  }

  lemma {:induction false} InvokeFits(t: Tracker, course: Body, b: Body, w: Body)
    requires Within(course, b) && IsTail(b, w) && Distinct(w) && Fits(t.states, t.current, w)
    ensures Fits(Invoke(t, course).tracker.states, t.current, w)
    decreases course
  {
    hide Fits, Distinct, IsTail;
    if course.Section? {
      TailOfTail(b, w);
      if Enters(t, b.key) {
        var u := Invoke(Enter(t, b.key), course.inner);
        ChildFits(t, course, b, w);
        if !u.threw {
          var l := Leave(u.tracker);
          assert l.current == t.current;
          FitsOnKeys(u.tracker.states, l.states, t.current, w);
          InvokeFits(l, course.next, b.next, w);
        }
      } else {
        AcquiredFits(t, b, w);
        InvokeFits(Acquire(t, b.key), course.next, b.next, w);
      }
    }
  }

  lemma {:induction false} ChildFits(t: Tracker, course: Body, b: Body, w: Body)
    requires course.Section? && Within(course, b) && IsTail(b, w) && Distinct(w) && Fits(t.states, t.current, w)
    ensures var child := t.current + [b.key];
            var u := Invoke(Enter(t, b.key), course.inner);
            && Fits(Enter(t, b.key).states, child, b.inner)
            && Distinct(b.inner)
            && Fits(u.tracker.states, child, b.inner)
            && Fits(u.tracker.states, t.current, w)
            && child in u.tracker.states && (!u.threw ==> u.tracker.current == child)
    decreases course, 0
  {
    hide Fits, IsTail;
    var child := t.current + [b.key];
    var e := Enter(t, b.key);
    var u := Invoke(e, course.inner);
    EnteredFits(t, b, w);
    FitsBelow(e.states, t.current, b, w);
    TailDecides(b, w, [b.key]);
    WholeTail(b.inner);
    InvokeFits(e, course.inner, b.inner, b.inner);
    InvokeFrame(e, course.inner);
    forall q: Path | q in u.tracker.states && !(child <= q) ensures q in e.states {
      assert Find(e.states, q) == Find(u.tracker.states, q);
    }
    FitsAround(e.states, u.tracker.states, t.current, b, w);
  }

  lemma EnteredFits(t: Tracker, b: Body, w: Body)
    requires b.Section? && IsTail(b, w) && Distinct(w) && Fits(t.states, t.current, w)
    ensures Fits(Enter(t, b.key).states, t.current, w)
  {
    var child := t.current + [b.key];
    TailDecides(b, w, [b.key]);
    assert child[|t.current|..] == [b.key];
  }

  lemma AcquiredFits(t: Tracker, b: Body, w: Body)
    requires b.Section? && IsTail(b, w) && Distinct(w) && Fits(t.states, t.current, w)
    ensures Fits(Acquire(t, b.key).states, t.current, w)
  {
    var child := t.current + [b.key];
    TailDecides(b, w, [b.key]);
    assert child[|t.current|..] == [b.key];
  }

  lemma FitsOnKeys(s: States, s': States, p: Path, w: Body)
    requires Fits(s, p, w) && forall q | q in s' && p < q :: q in s
    ensures Fits(s', p, w)
  {
  }

  lemma WholeTail(w: Body)
    ensures IsTail(w, w)
  {
  }

  /** No pass makes any other section known. */
  lemma {:induction false} PassFits(t: Tracker, course: Body, b: Body)
    requires [] in t.states && Within(course, b) && Distinct(b) && Fits(t.states, [], b)
    ensures Fits(RunOnce(t, course).states, [], b)
  {
    hide Fits, Distinct;
    var t0 := EnterTestCase(t);
    FitsOnKeys(t.states, t0.states, [], b);
    WholeTail(b);
    InvokeFits(t0, course, b, b);
    OpenIsKnown(t0, course);
    var u := Invoke(t0, course);
    var l := LeaveTestCase(u.tracker);
    ReplayKeys(l, |u.pending|);
    FitsOnKeys(u.tracker.states, RunOnce(t, course).states, [], b);
  }

  /** The sections a pass stands in are known. */
  ghost predicate OpenKnown(t: Tracker, outer: nat) {
    forall m | outer < m <= |t.current| :: t.current[..m] in t.states
  }

  lemma {:induction false} OpenIsKnown(t: Tracker, b: Body)
    ensures OpenKnown(Invoke(t, b).tracker, |t.current|)
    decreases b
  {
    if b.Section? {
      if Enters(t, b.key) {
        var e := Enter(t, b.key);
        var u := Invoke(e, b.inner);
        OpenIsKnown(e, b.inner);
        if u.threw {
          assert e.current in u.tracker.states && u.tracker.current[..|e.current|] == e.current;
        } else {
          LeavesBack(t, b.key, u);
          OpenIsKnown(Leave(u.tracker), b.next);
        }
      } else {
        OpenIsKnown(Acquire(t, b.key), b.next);
      }
    }
  }

  lemma {:induction false} ReplayKeys(t: Tracker, n: nat)
    requires n <= |t.current| && OpenKnown(t, |t.current| - n)
    ensures Replay(t, n).states.Keys == t.states.Keys
    decreases n
  {
    hide LeftState;
    if n > 0 {
      assert t.current[..|t.current|] == t.current;
      var l := Leave(t);
      assert forall m | 0 <= m <= |l.current| :: l.current[..m] == t.current[..m];
      ReplayKeys(l, n - 1);
    }
  }

  /** The children a section is found to have when its body has been passed through. */
  lemma ChildrenFound(t: Tracker, b: Body)
    requires !Invoke(t, b).threw && Fits(Invoke(t, b).tracker.states, t.current, b)
    ensures Invoke(t, b).tracker.current == t.current
    ensures HasChildren(Invoke(t, b).tracker) <==> b.Section?
  {
    var u := Invoke(t, b).tracker;
    if b.Section? {
      FirstKnown(t, b);
    } else {
      forall k: Key ensures t.current + [k] !in u.states {
        assert (t.current + [k])[|t.current|..] == [k] && t.current < t.current + [k];
      }
    }
  }

  lemma FirstKnown(t: Tracker, b: Body)
    requires b.Section?
    ensures t.current + [b.key] in Invoke(t, b).tracker.states
  {
    if Enters(t, b.key) {
      assert t.current + [b.key] in Enter(t, b.key).states;
      var u := Invoke(Enter(t, b.key), b.inner);
      assert t.current + [b.key] in u.tracker.states;
    } else {
      assert t.current + [b.key] in Acquire(t, b.key).states;
    }
  }
}
