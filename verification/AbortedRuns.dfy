/** Runs that are to abort after the first failure, at three inputs. */
module AbortedRuns {
  import opened TestBodies
  import opened TrackerModel
  import opened TrackerProgress
  import opened TotalsKeeping
  import opened RunnerModel
  import opened TestRuns

  /** The run is to abort after one failure, and sections without assertions are failures. */
  const FIRST_FAILURE := Config(true, 1)

  // ---------- a failing check ----------

  const TWO_CHECKS := Check(Failed, Check(Failed, Finish))

  /** Of two failing checks only the first is made. */
  lemma StopsAtCount(start: Counts, name: Key)
    requires start.failed == 0
    ensures var t := Test(name, TWO_CHECKS, false);
            && AbortsIn(t, start, FIRST_FAILURE, 0)
            && TestAfter(t, start, FIRST_FAILURE, 1).counts == start.(failed := 1)
            && Stops(t, start, FIRST_FAILURE, 1)
  {
    hide Exec;
    var t := Test(name, TWO_CHECKS, false);
    TestNext(t, start, FIRST_FAILURE, 0);
    var c := TestStart(start);
    ExecFirst(Begin(c.(tracker := EnterTestCase(c.tracker)), []), TWO_CHECKS, FIRST_FAILURE);
  }

  /** Neither is a test run after that one. */
  lemma NoTestAfter(name: Key, other: Test)
    requires other.name != name
    ensures var t := Test(name, TWO_CHECKS, false);
            var s := SessionOf([t, other], FIRST_FAILURE);
            s.stopped && s.names == {name} && s.assertions == Counts(0, 1, 0) && s.testCases == Counts(0, 1, 0)
  {
    hide TestAfter, AbortsIn, PassCount, Stops;
    var t := Test(name, TWO_CHECKS, false);
    StopsAtCount(ZERO, name);
    FirstStop(t, ZERO, FIRST_FAILURE, 1);
    SessionNext([t, other], FIRST_FAILURE, 0);
    SessionNext([t, other], FIRST_FAILURE, 1);
    assert [t, other][..0] == [] && [t, other][..2] == [t, other];
  }

  // ---------- a missing assertion that reaches the count ----------

  /** An empty section, a failing check, and what follows. */
  function Jumping(rest: Script): Script {
    Nest("D", Finish, Check(Failed, rest))
  }

  /** The context behind the empty section, which was found without assertions, and the check. */
  ghost function Jumped(c: Context): Context
    requires c.tracker == EnterTestCase(FRESH)
  {
    var b := Begin(c.(tracker := Enter(c.tracker, "D")), ["D"]);
    Assert(EndSection(b, Unfinished(["D"], c.counts, |c.history|), FIRST_FAILURE), Failed)
  }

  lemma JumpedIs(c: Context)
    requires c.tracker == EnterTestCase(FRESH) && c.counts.failed == 0
    ensures var d := Jumped(c);
            && d.tracker.states == map[[] := Executing, ["D"] := Completed]
            && d.tracker.current == [] && d.tracker.completedOne && d.counts == c.counts.(failed := 2)
  {
    hide Leave, HasChildren, Enter, EnterTestCase, EndSection;
    EmptyBegins(c.tracker);
    var b := Begin(c.(tracker := Enter(c.tracker, "D")), ["D"]);
    EmptyEnds(b.tracker);
    EmptyMisses(b, Unfinished(["D"], c.counts, |c.history|));
  }

  lemma EmptyMisses(c: Context, u: Unfinished)
    requires c.tracker.current != [] && !HasChildren(c.tracker) && u.prev == c.counts && c.counts.AtMost(c.counts)
    ensures var d := EndSection(c, u, FIRST_FAILURE);
            d.tracker == Leave(c.tracker) && d.counts == WithFailure(c.counts, true)
  {
    hide HasChildren, Leave;
    assert Misses(c, u.prev, FIRST_FAILURE);
  }

  lemma EmptyBegins(t: Tracker)
    requires t == EnterTestCase(FRESH)
    ensures Enter(t, "D").states == map[[] := Executing, ["D"] := Executing] && Enter(t, "D").current == ["D"]
  {
    assert t.current + ["D"] == ["D"];
  }

  /** The end of the empty section brings the failures to the count where nothing throws, and the check to
      one more. */
  lemma Jumps(c: Context, rest: Script)
    requires c.tracker == EnterTestCase(FRESH) && c.counts.failed == 0
    ensures SameBut(Exec(c, Jumping(rest), FIRST_FAILURE), Exec(Jumped(c), rest, FIRST_FAILURE))
  {
    hide Exec, Invoke, EndSection;
    var b := Begin(c.(tracker := Enter(c.tracker, "D")), ["D"]);
    assert c.tracker.current + ["D"] == ["D"];
    ExecFirst(b, Finish, FIRST_FAILURE);
    ExecNest(c, "D", Finish, Check(Failed, rest), FIRST_FAILURE);
    JumpedIs(c);
    ExecFirst(EndSection(b, Unfinished(["D"], c.counts, |c.history|), FIRST_FAILURE), Check(Failed, rest),
              FIRST_FAILURE);
  }

  lemma EmptyEnds(t: Tracker)
    requires t.states == map[[] := Executing, ["D"] := Executing] && t.current == ["D"]
    ensures !HasChildren(t)
    ensures Leave(t).states == map[[] := Executing, ["D"] := Completed]
    ensures Leave(t).current == [] && Leave(t).completedOne
  {
    assert forall k: Key :: |t.current + [k]| == 2;
  }

  /** Such a test has two failures instead of one, and the run goes on. */
  lemma AbortMissed(start: Counts, name: Key)
    requires start.failed == 0
    ensures var t := Test(name, Jumping(Finish), false);
            && !AbortsIn(t, start, FIRST_FAILURE, 0)
            && TestAfter(t, start, FIRST_FAILURE, 1).counts.failed == 2
            && TestAfter(t, start, FIRST_FAILURE, 1).tracker.states[[]] == Completed
  {
    hide Exec, Jumped, TestAfter, LeaveTestCase;
    var t := Test(name, Jumping(Finish), false);
    var c := TestStart(start);
    var b := Begin(c.(tracker := EnterTestCase(FRESH)), []);
    TestNext(t, start, FIRST_FAILURE, 0);
    Jumps(b, Finish);
    JumpedIs(b);
    ExecFirst(Jumped(b), Finish, FIRST_FAILURE);
    OnlyCompleted(Jumped(b).tracker);
    Counted(Unwinding(c, Jumping(Finish), FIRST_FAILURE).context, start);
  }

  lemma Counted(c: Context, start: Counts)
    requires start.AtMost(c.counts) && start.failed < c.counts.failed
    ensures EndTest(c, start, 0, false, FIRST_FAILURE).counts == c.counts
  {
    hide HasChildren;
  }

  lemma OnlyCompleted(t: Tracker)
    requires t.states == map[[] := Executing, ["D"] := Completed] && t.current == []
    ensures LeaveTestCase(t).states[[]] == Completed && LeaveTestCase(t).current == []
  {
    var root: Path := [];
    assert forall k: Key | root + [k] in t.states :: root + [k] == ["D"];
  }

  // ---------- a tolerated test without end ----------

  const TOLERATED := Jumping(Nest("C", Finish, Finish))

  function Waiting(root: RunState): States {
    map[[] := root, ["D"] := Completed, ["C"] := NotStarted]
  }

  lemma WaitingLeft(t: Tracker, root: RunState)
    requires t.states == Waiting(root)
    ensures LeaveTestCase(t).states == Waiting(ExecutingChildren)
  {
    var path: Path := [];
    assert path + ["C"] == ["C"];
    assert LeftState(t.states, []) == ExecutingChildren;
  }

  /** The first pass goes by the second section without entering it. */
  lemma FirstPass(c: Context)
    requires c.tracker == FRESH && c.counts.failed == 0
    ensures Pass(c, TOLERATED, true, FIRST_FAILURE).tracker.states == Waiting(ExecutingChildren)
  {
    hide Exec, Jumped, LeaveTestCase, EndTest;
    var b := Begin(c.(tracker := EnterTestCase(FRESH)), []);
    var rest := Nest("C", Finish, Finish);
    Jumps(b, rest);
    JumpedIs(b);
    var d := Jumped(b);
    ExecNest(d, "C", Finish, Finish, FIRST_FAILURE);
    var e := d.(tracker := Acquire(d.tracker, "C"));
    assert d.tracker.current + ["C"] == ["C"];
    assert e.tracker.states == Waiting(Executing);
    ExecFirst(e, Finish, FIRST_FAILURE);
    WaitingLeft(e.tracker, Executing);
  }

  /** In every other one the check throws before it. */
  lemma NextPass(c: Context)
    requires c.tracker.states == Waiting(ExecutingChildren) && c.counts.failed == 0
    ensures Unwinding(c, TOLERATED, FIRST_FAILURE).aborted
    ensures Pass(c, TOLERATED, true, FIRST_FAILURE).tracker.states == Waiting(ExecutingChildren)
  {
    hide Exec, LeaveTestCase, EndTest;
    var b := Begin(c.(tracker := EnterTestCase(c.tracker)), []);
    assert b.tracker.states == Waiting(ExecutingChildren);
    assert b.tracker.current + ["D"] == ["D"];
    var check := Check(Failed, Nest("C", Finish, Finish));
    ExecNest(b, "D", Finish, check, FIRST_FAILURE);
    ExecFirst(b, check, FIRST_FAILURE);
    WaitingLeft(b.tracker, ExecutingChildren);
  }

  /** The loop over the passes of the tolerated test never ends. */
  lemma Endless(start: Counts, name: Key, n: nat)
    requires start.failed == 0 && n > 0
    ensures !Stops(Test(name, TOLERATED, true), start, FIRST_FAILURE, n)
    ensures AbortsIn(Test(name, TOLERATED, true), start, FIRST_FAILURE, n)
  {
    hide Pass, TestAfter, Unwinding, SameSections;
    var t := Test(name, TOLERATED, true);
    PassesWait(t, start, n);
    FailedStays(t, start, FIRST_FAILURE, n);
    NextPass(TestAfter(t, start, FIRST_FAILURE, n));
  }

  lemma {:induction false} PassesWait(t: Test, start: Counts, n: nat)
    requires t.script == TOLERATED && t.okToFail && start.failed == 0 && n > 0
    ensures TestAfter(t, start, FIRST_FAILURE, n).tracker.states == Waiting(ExecutingChildren)
    decreases n
  {
    hide Pass, TestAfter, Waiting;
    TestNext(t, start, FIRST_FAILURE, n - 1);
    if n == 1 {
      FirstPass(TestStart(start));
    } else {
      PassesWait(t, start, n - 1);
      FailedStays(t, start, FIRST_FAILURE, n - 1);
      NextPass(TestAfter(t, start, FIRST_FAILURE, n - 1));
    }
  }
}
