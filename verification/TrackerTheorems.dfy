/** How often, in which order and how completely the sections of a test case are run. */
module TrackerTheorems {
  import opened Basics
  import opened TestBodies
  import opened TrackerModel
  import opened TrackerProofs

  // ---------- one pass of the whole test case ----------

  lemma LeavesBack(t: Tracker, key: Key, u: Unwound)
    requires Chain(u.pending, u.tracker.current, t.current + [key]) && u.pending == []
    ensures u.tracker.current == t.current + [key]
    ensures Leave(u.tracker).current == t.current
  {
  }

  lemma {:induction false} InvokeFrame(t: Tracker, b: Body)
    ensures forall q: Path | !(t.current < q) :: Find(t.states, q) == Find(Invoke(t, b).tracker.states, q)
    decreases b
  {
    if b.Section? {
      var child := t.current + [b.key];
      if Enters(t, b.key) {
        InvokeFrame(Enter(t, b.key), b.inner);
        var u := Invoke(Enter(t, b.key), b.inner);
        if !u.threw {
          LeavesBack(t, b.key, u);
          InvokeFrame(Leave(u.tracker), b.next);
        }
        forall q: Path | !(t.current < q)
          ensures Find(t.states, q) == Find(Invoke(t, b).tracker.states, q)
        {
          assert q != child && !(child < q);
          assert Find(t.states, q) == Find(Enter(t, b.key).states, q) == Find(u.tracker.states, q);
        }
      } else {
        InvokeFrame(Acquire(t, b.key), b.next);
      }
    }
  }

  /** While sections wait to be replayed, a child of the section below them is not completed. */
  lemma {:induction false} PendingIsOpen(t: Tracker, b: Body)
    requires Invoke(t, b).pending != []
    ensures !ChildrenCompleted(Invoke(t, b).tracker.states, t.current)
    decreases b
  {
    if Enters(t, b.key) {
      var u := Invoke(Enter(t, b.key), b.inner);
      if u.threw {
        InvokeFrame(Enter(t, b.key), b.inner);
        var child := t.current + [b.key];
        assert Find(Enter(t, b.key).states, child) == Find(u.tracker.states, child);
      } else {
        LeavesBack(t, b.key, u);
        PendingIsOpen(Leave(u.tracker), b.next);
      }
    } else {
      PendingIsOpen(Acquire(t, b.key), b.next);
    }
  }

  ghost function WithRoot(t: Tracker, state: RunState): Tracker {
    t.(states := t.states[[] := state])
  }

  lemma LeaveKeepsRoot(t: Tracker, state: RunState)
    requires t.current != []
    ensures WithRoot(t, state).current == t.current && Leave(WithRoot(t, state)) == WithRoot(Leave(t), state)
  {
    var w := WithRoot(t, state);
    assert ChildrenCompleted(w.states, t.current) == ChildrenCompleted(t.states, t.current);
    assert w.states[t.current := LeftState(t.states, t.current)]
        == t.states[t.current := LeftState(t.states, t.current)][[] := state];
  }

  lemma {:induction false} ReplayKeepsRoot(t: Tracker, state: RunState, n: nat)
    requires n <= |t.current|
    ensures Replay(WithRoot(t, state), n) == WithRoot(Replay(t, n), state)
    decreases n
  {
    hide LeftState;
    if n > 0 {
      LeaveKeepsRoot(t, state);
      ReplayKeepsRoot(Leave(t), state, n - 1);
    }
  }

  /** A pass in terms of leaving each section at once: only the state of the test case
      itself shows that the guard ran before the replay. */
  lemma {:induction false} PassIsEager(t: Tracker, b: Body)
    requires [] in t.states
    ensures var u, e := Invoke(EnterTestCase(t), b), Eager(EnterTestCase(t), b).tracker;
            RunOnce(t, b)
            == WithRoot(e, if u.pending != [] then ExecutingChildren else LeftState(e.states, []))
  {
    var t0 := EnterTestCase(t);
    var u := Invoke(t0, b);
    DeferredIsEager(t0, b);
    ReplayKeepsRoot(u.tracker, LeftState(u.tracker.states, []), |u.pending|);
    if u.pending != [] {
      PendingIsOpen(t0, b);
    }
  }

  // ---------- when is something pending? ----------

  lemma {:induction false} SkipPending(t: Tracker, b: Body)
    requires t.completedOne
    ensures Invoke(t, b).pending == []
    decreases b
  {
    if b.Section? {
      SkipPending(Acquire(t, b.key), b.next);
    }
  }

  lemma {:induction false} CompletedPending(t: Tracker, b: Body)
    requires ForestReady(t.states, t.current, b, ForestCount(b))
    ensures Invoke(t, b).pending == []
    decreases b
  {
    if b.Section? {
      CompletedPending(t, b.next);
    }
  }

  lemma {:induction false} FirstPending(t: Tracker, b: Body, k: nat)
    requires Distinct(b) && !t.completedOne && b.Section? && k < RunCount(b.inner)
    requires ForestReady(t.states, t.current, b, k)
    ensures Invoke(t, b).pending != [] <==> ForestRun(b, k).threw
  {
    RunSection(t, b.key, b.inner, k);
    DeferredIsEager(Enter(t, b.key), b.inner);
    var u := Invoke(Enter(t, b.key), b.inner);
    if !u.threw {
      SkipPending(Leave(u.tracker), b.next);
    }
  }

  lemma {:induction false} ForestPending(t: Tracker, b: Body, k: nat)
    requires Distinct(b) && !t.completedOne
    requires ForestReady(t.states, t.current, b, k) && k < ForestCount(b)
    ensures Invoke(t, b).pending != [] <==> ForestRun(b, k).threw
    decreases b
  {
    hide SectionReady, SectionAt, Enters, Enter, Acquire, Leave;
    if k < RunCount(b.inner) {
      FirstPending(t, b, k);
    } else {
      PassedOver(t, b, k);
      ForestPending(t, b.next, k - RunCount(b.inner));
    }
  }

  lemma PassedOver(t: Tracker, b: Body, k: nat)
    requires b.Section? && k >= RunCount(b.inner) && ForestReady(t.states, t.current, b, k)
    ensures !Enters(t, b.key) && Acquire(t, b.key) == t
  {
  }

  // ---------- all passes ----------

  ghost function After(b: Body, i: nat): (t: Tracker)
    ensures [] in t.states
  {
    if i == 0 then FRESH else RunOnce(After(b, i - 1), b)
  }

  /** What the first `k` passes that run a section leave in the log. */
  ghost function History(b: Body, k: nat): seq<Event>
    requires k <= ForestCount(b)
    decreases k
  {
    if k == 0 then [] else History(b, k - 1) + Trace([], ForestRun(b, k - 1).path)
  }

  ghost function RootState(b: Body, i: nat): RunState {
    if i == 0 then NotStarted else if i < TotalRuns(b) then ExecutingChildren else Completed
  }

  /** The tracker between passes, `k` of which ran a section. */
  ghost predicate Ran(t: Tracker, b: Body, k: nat, root: RunState)
    requires k <= ForestCount(b)
  {
    && t.current == []
    && ForestReady(t.states, [], b, k)
    && (forall q | q in t.states && q != [] :: q[0] in Keys(b))
    && Find(t.states, []) == Known(root)
    && t.log == History(b, k)
  }

  /** The tracker between passes, after `i` of them. */
  ghost predicate Between(t: Tracker, b: Body, i: nat) {
    Ran(t, b, Min(i, ForestCount(b)), RootState(b, i))
  }

  lemma {:induction false} ReadyIsAt(s: States, p: Path, b: Body)
    requires ForestReady(s, p, b, ForestCount(b))
    ensures ForestAt(s, p, b, ForestCount(b))
    decreases b
  {
    if b.Section? {
      ReadyIsAt(s, p, b.next);
    }
  }

  lemma RootFrame(s: States, s': States, b: Body, k: nat)
    requires forall q: Path | q != [] :: Find(s, q) == Find(s', q)
    requires ForestReady(s, [], b, k)
    ensures ForestReady(s', [], b, k)
  {
    forall key ensures Agree(s, s', [] + [key]) {
    }
    ForestReadyFrame(s, s', [], b, k);
  }

  lemma RootChildren(s: States, b: Body, k: nat)
    requires forall q | q in s && q != [] :: q[0] in Keys(b)
    requires ForestAt(s, [], b, k) && k <= ForestCount(b)
    ensures ChildrenCompleted(s, []) <==> k == ForestCount(b)
  {
    forall key: Key | [] + [key] in s ensures key in Keys(b) {
      assert ([] + [key])[0] == key;
    }
    if k == ForestCount(b) {
      AllDone(s, [], b);
    } else {
      var key := SomeOpen(s, [], b, k);
    }
  }

  lemma NextPass(t: Tracker, b: Body, i: nat)
    requires Distinct(b) && i < TotalRuns(b) && Between(t, b, i)
    ensures Between(RunOnce(t, b), b, i + 1)
  {
    hide ForestReady, ForestRun, ForestCount, Keys, History;
    if i < ForestCount(b) {
      SectionPassed(t, b, i);
      assert Min(i + 1, ForestCount(b)) == i + 1;
    } else {
      EmptyPass(t, b, RootState(b, i));
    }
  }

  /** A pass that runs a section. */
  lemma SectionPassed(t: Tracker, b: Body, i: nat)
    requires Distinct(b) && i < ForestCount(b) && Ran(t, b, i, RootState(b, i))
    ensures Ran(RunOnce(t, b), b, i + 1, RootState(b, i + 1))
  {
    hide ForestReady, ForestAt, ForestRun, ForestCount, Keys, History, TotalRuns, Trace;
    var t0 := EnterTestCase(t);
    RootFrame(t.states, t0.states, b, i);
    PassIsEager(t, b);
    RunForest(t0, b, i);
    ForestPending(t0, b, i);
    var e := Eager(t0, b).tracker;
    OnlyBodyKeys(t0.states, e.states, b);
    RootLeft(e.states, b, i);
    SectionsPass(t, e, b, i, RootState(b, i), RootState(b, i + 1));
  }

  /** The pass after the last section ran enters nothing and completes the test case. */
  lemma EmptyPass(t: Tracker, b: Body, root: RunState)
    requires Ran(t, b, ForestCount(b), root)
    ensures Ran(RunOnce(t, b), b, ForestCount(b), Completed)
  {
    hide ForestReady, ForestAt, ForestRun, ForestCount, Keys, History, TotalRuns, RunOnce, Invoke, Eager, LeaveTestCase;
    var t0, n := EnterTestCase(t), ForestCount(b);
    RootFrame(t.states, t0.states, b, n);
    PassIsEager(t, b);
    CompletedForest(t0, b);
    CompletedPending(t0, b);
    ReadyIsAt(t0.states, [], b);
    RootChildren(t0.states, b, n);
    RootFrame(t0.states, RunOnce(t, b).states, b, n);
  }

  lemma SectionsPass(t: Tracker, e: Tracker, b: Body, k: nat, before: RunState, after: RunState)
    requires k < ForestCount(b) && Ran(t, b, k, before)
    requires ForestReady(e.states, [], b, k + 1) && e.current == []
    requires forall q | q in e.states && q != [] :: q[0] in Keys(b)
    requires e.log == t.log + Trace([], ForestRun(b, k).path)
    ensures Ran(WithRoot(e, after), b, k + 1, after)
  {
    hide ForestReady, ForestRun, ForestCount, Keys, Trace;
    RootFrame(e.states, WithRoot(e, after).states, b, k + 1);
  }

  lemma OnlyBodyKeys(s: States, e: States, b: Body)
    requires Touches(s, e, [], Keys(b))
    requires forall q | q in s && q != [] :: q[0] in Keys(b)
    ensures forall q | q in e && q != [] :: q[0] in Keys(b)
  {
    forall q | q in e && q != [] ensures q[0] in Keys(b) {
      if Find(s, q) == Find(e, q) {
        assert q in s;
      }
    }
  }

  lemma RootLeft(e: States, b: Body, i: nat)
    requires i < ForestCount(b)
    requires forall q | q in e && q != [] :: q[0] in Keys(b)
    requires !ForestRun(b, i).threw ==> ForestAt(e, [], b, i + 1)
    ensures (if ForestRun(b, i).threw then ExecutingChildren else LeftState(e, [])) == RootState(b, i + 1)
  {
    if !ForestRun(b, i).threw {
      RootChildren(e, b, i + 1);
    }
  }

  lemma BeforeFirstPass(b: Body)
    ensures Between(FRESH, b, 0)
  {
    hide ForestReady, ForestRun, ForestCount, Keys, TotalRuns;
    UnknownReady(FRESH.states, [], b);
  }

  /** After any number of passes of the loop in `runTest`, up to its last. */
  lemma {:induction false} Passes(b: Body, i: nat)
    requires Distinct(b) && i <= TotalRuns(b)
    ensures Between(After(b, i), b, i)
    decreases i
  {
    hide Ran, RootState, ForestCount, TotalRuns, RunOnce;
    if i == 0 {
      BeforeFirstPass(b);
    } else {
      Passes(b, i - 1);
      NextPass(After(b, i - 1), b, i - 1);
      assert After(b, i) == RunOnce(After(b, i - 1), b);
    }
  }

  /** The loop stops after exactly `TotalRuns` passes, and the log is that of the runs of
      `ForestRun` in order. */
  lemma {:induction false} RunsUntilCompleted(b: Body)
    requires Distinct(b)
    ensures forall i | 0 <= i < TotalRuns(b) :: After(b, i).states[[]] != Completed
    ensures After(b, TotalRuns(b)).states[[]] == Completed
    ensures After(b, TotalRuns(b)).log == History(b, ForestCount(b))
  {
    forall i | 0 <= i < TotalRuns(b) ensures After(b, i).states[[]] != Completed {
      Passes(b, i);
    }
    Passes(b, TotalRuns(b));
  }

  lemma {:induction false} LastPass(b: Body)
    requires Distinct(b)
    ensures Ran(After(b, TotalRuns(b)), b, ForestCount(b), Completed)
  {
    hide Ran, After, ForestRun;
    Passes(b, TotalRuns(b));
    assert Min(TotalRuns(b), ForestCount(b)) == ForestCount(b);
  }

  /** `runTest` keeps the tracker between generator combinations, so once the test case is completed
      every further pass enters no section. */
  lemma {:induction false} LaterPassesEnterNothing(b: Body, i: nat)
    requires Distinct(b) && i >= TotalRuns(b)
    ensures After(b, i).log == History(b, ForestCount(b)) && After(b, i).states[[]] == Completed
    ensures Ran(After(b, i), b, ForestCount(b), Completed)
    decreases i
  {
    hide RootState, ForestReady, ForestCount, TotalRuns, RunOnce, History, Keys;
    if i == TotalRuns(b) {
      LastPass(b);
    } else {
      LaterPassesEnterNothing(b, i - 1);
      EmptyPass(After(b, i - 1), b, Completed);
    }
  }
}
