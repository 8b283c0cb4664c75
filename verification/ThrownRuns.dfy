/** How many sections the exception of a pass leaves unfinished, from the body alone. */
module ThrownRuns {
  import opened Basics
  import opened TestBodies
  import opened TrackerModel
  import opened TrackerProofs
  import opened TrackerTheorems

  /** How many sections pass `k` over the siblings of `b` leaves to an exception. */
  function ForestLeft(b: Body, k: nat): nat
    requires k < ForestCount(b)
    decreases b, 0
  {
    if k < RunCount(b.inner) then SectionLeft(b.inner, k) else ForestLeft(b.next, k - RunCount(b.inner))
  }

  /** As above for pass `k` of a section with body `b`, itself included. */
  function SectionLeft(b: Body, k: nat): nat
    requires k < RunCount(b)
    decreases b, 1
  {
    if !SectionRun(b, k).threw then 0 else 1 + if b.Section? then ForestLeft(b, k) else 0
  }

  lemma {:induction false} LeftBound(b: Body, k: nat)
    requires k < ForestCount(b)
    ensures ForestLeft(b, k) <= |ForestRun(b, k).path|
    ensures ForestLeft(b, k) > 0 <==> ForestRun(b, k).threw
    decreases b
  {
    if k < RunCount(b.inner) {
      if b.inner.Section? {
        NestedRun(b.inner, k);
        LeftBound(b.inner, k);
      }
    } else {
      LeftBound(b.next, k - RunCount(b.inner));
    }
  }

  /** The sections left are the outermost ones on the path of the pass. */
  ghost predicate LeftOnPath(t: Tracker, u: Unwound, path: Path, n: nat)
    requires n <= |path|
  {
    |u.pending| == n && (n > 0 ==> u.tracker.current == t.current + path[..n])
  }

  lemma {:induction false} PendingIsLeft(t: Tracker, b: Body, k: nat)
    requires Distinct(b) && !t.completedOne
    requires ForestReady(t.states, t.current, b, k) && k < ForestCount(b)
    ensures ForestLeft(b, k) <= |ForestRun(b, k).path|
    ensures LeftOnPath(t, Invoke(t, b), ForestRun(b, k).path, ForestLeft(b, k))
    decreases b, 0
  {
    LeftBound(b, k);
    if k < RunCount(b.inner) {
      SectionPendingIsLeft(t, b, k);
    } else {
      PassedOver(t, b, k);
      PendingIsLeft(t, b.next, k - RunCount(b.inner));
    }
  }

  lemma {:induction false} SectionPendingIsLeft(t: Tracker, b: Body, k: nat)
    requires Distinct(b) && !t.completedOne && b.Section? && k < RunCount(b.inner)
    requires ForestReady(t.states, t.current, b, k) && ForestLeft(b, k) <= |ForestRun(b, k).path|
    ensures LeftOnPath(t, Invoke(t, b), ForestRun(b, k).path, ForestLeft(b, k))
    decreases b.inner, 1
  {
    hide Invoke, SectionAt, ForestReady, Leave, Eager, RunCount;
    var p, e := t.current + [b.key], Enter(t, b.key);
    FirstPending(t, b, k);
    FirstThrown(t, b, k);
    LeftBound(b, k);
    var u := Invoke(e, b.inner);
    var path := SectionRun(b.inner, k).path;
    if u.threw {
      if b.inner.Section? {
        InnerReady(t, b, k);
        PendingIsLeft(e, b.inner, k);
        PathUp(t.current, b.key, path, ForestLeft(b.inner, k));
        LeftUp(e, u, p, path, ForestLeft(b.inner, k));
      } else {
        PathUp(t.current, b.key, path, 0);
        LeafThrows(e, b.inner);
      }
    }
  }

  lemma LeafThrows(t: Tracker, b: Body)
    requires !b.Section?
    ensures Invoke(t, b).pending == [] && Invoke(t, b).tracker == t
  {
  }

  lemma LeftUp(e: Tracker, u: Unwound, p: Path, path: Path, n: nat)
    requires n <= |path| && LeftOnPath(e, u, path, n) && e.current == p && Chain(u.pending, u.tracker.current, p)
    ensures |u.pending| == n && u.tracker.current == p + path[..n]
  {
  }

  lemma PathUp(p: Path, key: Key, path: Path, n: nat)
    requires n <= |path|
    ensures ([key] + path)[..n + 1] == [key] + path[..n]
    ensures p + [key] + path[..n] == p + ([key] + path)[..n + 1]
  {
  }

  /** What the exception of a section leaves unfinished: the section and what is unfinished in it. */
  lemma FirstThrown(t: Tracker, b: Body, k: nat)
    requires Distinct(b) && !t.completedOne && b.Section? && k < RunCount(b.inner)
    requires ForestReady(t.states, t.current, b, k)
    ensures Enters(t, b.key)
    ensures var u := Invoke(Enter(t, b.key), b.inner);
            && u.threw == SectionRun(b.inner, k).threw
            && Chain(u.pending, u.tracker.current, t.current + [b.key])
            && (u.threw ==> Invoke(t, b) == Unwound(u.tracker, u.pending + [t.current + [b.key]], true))
  {
    RunSection(t, b.key, b.inner, k);
    DeferredIsEager(Enter(t, b.key), b.inner);
  }

  lemma InnerReady(t: Tracker, b: Body, k: nat)
    requires Distinct(b) && !t.completedOne && b.Section? && b.inner.Section? && k < RunCount(b.inner)
    requires ForestReady(t.states, t.current, b, k)
    ensures var e := Enter(t, b.key);
            && !e.completedOne && Distinct(b.inner) && k < ForestCount(b.inner)
            && ForestReady(e.states, e.current, b.inner, k)
            && SectionRun(b.inner, k).path == ForestRun(b.inner, k).path
  {
    var e := Enter(t, b.key);
    EnteredChildren(t, b.key, b.inner, k);
    ChildrenReady(e.states, t.current + [b.key], b.inner, k);
    NestedRun(b.inner, k);
  }

  // ---------- for every pass ----------

  /** How many sections pass `i` of a test case leaves to an exception. */
  function LeftCount(b: Body, i: nat): nat {
    if i < ForestCount(b) then ForestLeft(b, i) else 0
  }

  /** The sections pass `i` leaves unfinished, outermost first, as a path. */
  function LeftPath(b: Body, i: nat): (path: Path)
    ensures |path| == LeftCount(b, i)
  {
    if i < ForestCount(b) then
      LeftBound(b, i);
      ForestRun(b, i).path[..ForestLeft(b, i)]
    else []
  }

  /** In pass `i` exactly that many sections are unfinished when the exception has left the test case, and
      they are the ones around the point where it was thrown. */
  lemma PassLeaves(b: Body, i: nat)
    requires Distinct(b) && i < TotalRuns(b)
    ensures var u := Invoke(EnterTestCase(After(b, i)), b);
            |u.pending| == LeftCount(b, i) && u.tracker.current == LeftPath(b, i)
  {
    hide ForestReady, ForestRun, ForestCount, Keys, RootState, TotalRuns, History, ForestLeft, LeftOnPath;
    Passes(b, i);
    var t, k := After(b, i), Min(i, ForestCount(b));
    assert Ran(t, b, k, RootState(b, i));
    var t0 := EnterTestCase(t);
    RootFrame(t.states, t0.states, b, k);
    var u := Invoke(t0, b);
    if i < ForestCount(b) {
      PendingIsLeft(t0, b, i);
      LeftIs(t0, u, ForestRun(b, i).path, ForestLeft(b, i));
    } else {
      CompletedPending(t0, b);
    }
  }

  lemma LeftIs(t: Tracker, u: Unwound, path: Path, n: nat)
    requires n <= |path| && LeftOnPath(t, u, path, n) && t.current == [] && Chain(u.pending, u.tracker.current, [])
    ensures |u.pending| == n && u.tracker.current == path[..n]
  {
  }

  function Reversed<T>(s: seq<T>): (r: seq<T>)
    ensures |r| == |s| && forall j | 0 <= j < |s| :: r[j] == s[|s| - 1 - j]
  {
    if s == [] then [] else Reversed(s[1..]) + [s[0]]
  }

  /** The tracker leaves the unfinished sections in unwinding order, innermost first. */
  lemma {:induction false} ReplayLeavesInnermostFirst(t: Tracker, pending: seq<Path>, outer: Path)
    requires Chain(pending, t.current, outer)
    ensures Replay(t, |pending|).log
            == t.log + seq(|pending|, j requires 0 <= j < |pending| => Event.Left(pending[j]))
    decreases |pending|
  {
    if pending != [] {
      var rest := pending[1..];
      assert pending[0] == t.current;
      forall j | 0 <= j < |rest| ensures rest[j] == Leave(t).current[..|t.current| - 1 - j] {
        assert rest[j] == pending[j + 1];
      }
      ReplayLeavesInnermostFirst(Leave(t), rest, outer);
    }
  }

  /** The runner reports them in the opposite order: in pass `i` the two orders agree if and only if the
      body leaves at most one section to the exception of that pass. */
  lemma ReporterAgreesIff(b: Body, i: nat)
    requires Distinct(b) && i < TotalRuns(b)
    ensures var pending := Invoke(EnterTestCase(After(b, i)), b).pending;
            Reversed(pending) == pending <==> LeftCount(b, i) <= 1
  {
    hide LeftCount, Invoke, After;
    PassLeaves(b, i);
    var u := Invoke(EnterTestCase(After(b, i)), b);
    if |u.pending| > 1 {
      assert |Reversed(u.pending)[0]| != |u.pending[0]|;
    }
  }

  /** A body whose only run is cut short in two sections at once, so that the guard has left the test case
      before they are ended: a second pass follows, and in the first the orders differ. */
  lemma TwoLeft()
    ensures var b := Section("a", Section("b", Throw, Done), Done);
            && Distinct(b) && ForestCount(b) == 1 && TotalRuns(b) == 2
            && LeftCount(b, 0) == 2 && LeftPath(b, 0) == ["a", "b"]
            && Reversed(Invoke(EnterTestCase(After(b, 0)), b).pending) != Invoke(EnterTestCase(After(b, 0)), b).pending
  {
    var b := Section("a", Section("b", Throw, Done), Done);
    assert RunCount(b.inner) == 1 && RunCount(b.inner.inner) == 1;
    assert ForestLeft(b, 0) == 2 && ForestRun(b, 0).path == ["a", "b"];
    hide Invoke, After, LeftCount;
    ReporterAgreesIff(b, 0);
  }
}
