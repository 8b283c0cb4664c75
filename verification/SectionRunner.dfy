/** The runner: its loop over the passes of a test case, its handling of sections left by an exception, its
    counts and its calls to the reporter. */
module SectionRunner {
  import opened Basics
  import opened TestBodies
  import opened TrackerModel
  import opened SectionTracking
  import opened TotalsKeeping
  import opened RunnerModel
  import opened TestRuns
  import opened TestTallies

  class RunContext {
    var tracker: TestCaseTracker
    var totals: Totals
    /** `m_unfinishedSections`: sections left by an exception, in unwinding order. */
    var unfinishedSections: seq<Unfinished>
    /** The calls to the reporter for the current test case. */
    var history: seq<Entry>
    const config: Config

    ghost predicate Valid()
      reads this, tracker, tracker.sections
    {
      tracker.Valid()
    }

    ghost function State(): Context
      reads this, tracker
    {
      Context(tracker.Model(), totals.assertions, history)
    }

    constructor (config: Config)
      ensures Valid() && fresh(tracker) && fresh(tracker.sections) && this.config == config
      ensures totals == Totals(ZERO, ZERO) && unfinishedSections == [] && State() == Context(FRESH, ZERO, [])
    {
      this.config := config;
      tracker := new TestCaseTracker("");
      totals := Totals(ZERO, ZERO);
      unfinishedSections, history := [], [];
    }

    method AssertionEnded(result: Result)
      modifies this`totals, this`history
      ensures State() == Assert(old(State()), result) && totals.testCases == old(totals.testCases)
    {
      var a := totals.assertions;
      if result == Ok {
        totals := totals.(assertions := a.(passed := a.passed + 1));
      } else if result == Failed {
        totals := totals.(assertions := a.(failed := a.failed + 1));
      }
      history := history + [Asserted(result)];
    }

    method Aborting() returns (b: bool)
      ensures b <==> totals.assertions.failed == config.abortAfter
    {
      b := totals.assertions.failed == config.abortAfter;
    }

    /** What a checking macro does with its result; it throws at a failure that finds the run aborting. */
    method CheckEnded(result: Result) returns (throws: bool)
      modifies this`totals, this`history
      ensures State() == Assert(old(State()), result) && totals.testCases == old(totals.testCases)
      ensures throws <==> Aborts(State(), result, config)
    {
      AssertionEnded(result);
      throws := false;
      if result == Failed {
        throws := Aborting();
      }
    }

    /** Whether the section runs, with the section as it remembers its begin if so. */
    method SectionStarted(name: Key, at: Path) returns (included: bool, section: Unfinished)
      requires Valid() && State().tracker.current == at
      modifies this`history, tracker, tracker.sections
      ensures Valid() && fresh(tracker.sections - old(tracker.sections))
      ensures included <==> Enters(old(State()).tracker, name)
      ensures var c := old(State());
              State() == if included then Begin(c.(tracker := Enter(c.tracker, name)), at + [name])
                         else c.(tracker := Acquire(c.tracker, name))
      ensures section == Unfinished(at + [name], old(totals.assertions), |old(history)|)
    {
      section := Unfinished(at + [name], totals.assertions, |history|);
      included := tracker.EnterSection(name);
      if included {
        history := history + [Begun(at + [name])];
      }
    }

    /** Counts a failure for a section or test that ran no assertion; `assertions` are the assertions it ran,
        corrected in the result. */
    method TestForMissingAssertions(assertions: Counts)
      returns (missing: bool, corrected: Counts, hasChildren: bool)
      requires Valid()
      modifies this`totals
      ensures hasChildren <==> HasChildren(tracker.Model())
      ensures missing <==> assertions.Total() == 0 && config.warn && !hasChildren
      ensures totals == old(totals).(assertions := WithFailure(old(totals.assertions), missing))
      ensures corrected == WithFailure(assertions, missing)
    {
      hasChildren := tracker.CurrentSectionHasChildren();
      corrected, missing := assertions, false;
      if assertions.Total() != 0 || !config.warn || hasChildren {
        return;
      }
      totals := totals.(assertions := totals.assertions.(failed := totals.assertions.failed + 1));
      corrected := assertions.(failed := assertions.failed + 1);
      missing := true;
    }

    /** Called by the destructor of a section object; `uncaught` is `std::uncaught_exception()`. */
    method SectionEnded(section: Unfinished, uncaught: bool)
      requires Valid()
      requires !uncaught ==> State().tracker.current != [] && section.prev.AtMost(totals.assertions)
      modifies this`totals, this`history, this`unfinishedSections, tracker, tracker.sections
      ensures Valid() && tracker.sections == old(tracker.sections)
      ensures State() == if uncaught then old(State()) else EndSection(old(State()), section, config)
      ensures totals.testCases == old(totals.testCases)
      ensures unfinishedSections == old(unfinishedSections) + if uncaught then [section] else []
    {
      hide TestCaseTracker.Valid, LeftState, HasChildren;
      if uncaught {
        unfinishedSections := unfinishedSections + [section];
        return;
      }
      var assertions := totals.assertions.Minus(section.prev);
      var missing, corrected, hasChildren := TestForMissingAssertions(assertions);
      tracker.LeaveSection();
      history := history + [Ended(section.path, section.since, hasChildren, corrected, missing)];
    }

    /** Runs a test body below the section at `at`; returns whether an exception escapes, and what is
        reported about it. */
    method InvokeScript(s: Script, at: Path) returns (threw: bool, report: Option<Result>)
      requires Valid() && State().tracker.current == at
      modifies this`totals, this`history, this`unfinishedSections, tracker, tracker.sections
      ensures Valid() && fresh(tracker.sections - old(tracker.sections))
      ensures totals.testCases == old(totals.testCases)
      ensures var r := Exec(old(State()), s, config);
              && State() == r.context && threw == r.threw && (threw ==> report == r.report)
              && unfinishedSections == old(unfinishedSections) + r.pending
      decreases s, 1
    {
      hide TestCaseTracker.Valid, Exec, Assert;
      ExecFirst(State(), s, config);
      match s {
        case Finish => return false, None;
        case Raise(what) => return true, what;
        case Check(result, rest) =>
          threw := CheckEnded(result);
          if threw {
            return true, None;
          }
          threw, report := InvokeScript(rest, at);
        case Nest(key, inner, rest) => threw, report := InvokeSectionAndRest(key, inner, rest, at);
      }
    }

    /** A section object and the statements after it. */
    method InvokeSectionAndRest(key: Key, inner: Script, rest: Script, at: Path)
      returns (threw: bool, report: Option<Result>)
      requires Valid() && State().tracker.current == at
      modifies this`totals, this`history, this`unfinishedSections, tracker, tracker.sections
      ensures Valid() && fresh(tracker.sections - old(tracker.sections))
      ensures totals.testCases == old(totals.testCases)
      ensures var r := Exec(old(State()), Nest(key, inner, rest), config);
              && State() == r.context && threw == r.threw && (threw ==> report == r.report)
              && unfinishedSections == old(unfinishedSections) + r.pending
      decreases Nest(key, inner, rest), 0
    {
      hide TestCaseTracker.Valid, Exec, Invoke, Erase;
      ExecNext(State(), key, inner, rest, config);
      threw, report := InvokeSection(key, inner, at);
      if !threw {
        threw, report := InvokeScript(rest, at);
      }
    }

    /** The section object around `inner`: its constructor, the guarded body, its destructor. */
    method InvokeSection(key: Key, inner: Script, at: Path) returns (threw: bool, report: Option<Result>)
      requires Valid() && State().tracker.current == at
      modifies this`totals, this`history, this`unfinishedSections, tracker, tracker.sections
      ensures Valid() && fresh(tracker.sections - old(tracker.sections))
      ensures totals.testCases == old(totals.testCases)
      ensures var r := Exec(old(State()), Nest(key, inner, Finish), config);
              && State() == r.context && threw == r.threw && (threw ==> report == r.report)
              && unfinishedSections == old(unfinishedSections) + r.pending
      decreases inner, 2
    {
      hide TestCaseTracker.Valid, Enters, EndSection, Exec;
      ExecSection(State(), key, inner, config);
      threw, report := false, None;
      var included, section := SectionStarted(key, at);
      if included {
        threw, report := InvokeScript(inner, at + [key]);
        SectionEnded(section, threw);
      }
    }

    /** Ends the unfinished sections, last recorded first. */
    method EndUnfinished()
      requires Valid() && |unfinishedSections| <= |State().tracker.current|
      requires AllBefore(unfinishedSections, totals.assertions)
      modifies this`totals, this`history, this`unfinishedSections, tracker, tracker.sections
      ensures Valid() && tracker.sections == old(tracker.sections) && unfinishedSections == []
      ensures totals.testCases == old(totals.testCases)
      ensures var pending := old(unfinishedSections);
              State() == ReplayEnds(old(State()), pending, |pending|, config)
    {
      hide TestCaseTracker.Valid, EndSection;
      ghost var c := State();
      var n := |unfinishedSections|;
      var i := n;
      while i > 0
        invariant Valid() && tracker.sections == old(tracker.sections)
        invariant 0 <= i <= n && unfinishedSections == old(unfinishedSections)
        invariant totals.testCases == old(totals.testCases)
        invariant i <= |State().tracker.current| && AllBefore(unfinishedSections, totals.assertions)
        invariant ReplayEnds(State(), unfinishedSections, i, config) == ReplayEnds(c, unfinishedSections, n, config)
      {
        i := i - 1;
        SectionEnded(unfinishedSections[i], false);
      }
      unfinishedSections := [];
    }

    /** What is counted and reported after the body: a missing assertion, and failures that are tolerated. */
    method EndTestCase(prevAssertions: Counts, since: nat, okToFail: bool)
      requires Valid() && prevAssertions.AtMost(totals.assertions)
      modifies this`totals, this`history
      ensures State() == EndTest(old(State()), prevAssertions, since, okToFail, config)
      ensures totals.testCases == old(totals.testCases)
    {
      hide TestCaseTracker.Valid, HasChildren;
      var missing, assertions, hasChildren := TestForMissingAssertions(totals.assertions.Minus(prevAssertions));
      if okToFail {
        var a := totals.assertions;
        assertions := assertions.(failedButOk := assertions.failed, failed := assertions.failedButOk);
        totals := totals.(assertions := a.(failed := a.failed - assertions.failedButOk,
                                           failedButOk := a.failedButOk + assertions.failedButOk));
      }
      history := history + [Ended([], since, hasChildren, assertions, missing)];
    }

    lemma RootKnown()
      requires Valid()
      ensures [] in State().tracker.states
    {
    }

    /** The body of a pass, and what is reported of an exception that is not the runner's own; the guard
        leaves the test case while the exception is still unwinding. */
    method InvokeTest(s: Script)
      requires Valid() && unfinishedSections == [] && [] in State().tracker.states
      modifies this`totals, this`history, this`unfinishedSections, tracker, tracker.sections
      ensures Valid() && fresh(tracker.sections - old(tracker.sections))
      ensures totals.testCases == old(totals.testCases)
      ensures var r := Unwinding(old(State()), s, config);
              State() == r.context && unfinishedSections == r.pending
    {
      hide TestCaseTracker.Valid, Exec, EnterTestCase, LeaveTestCase;
      history := history + [Begun([])];
      tracker.EnterTestCase();
      assert State().tracker.current == [] by { EnteredCurrent(old(State()).tracker); }
      var threw, report := InvokeScript(s, []);
      tracker.LeaveTestCase();
      if threw && report.Some? {
        AssertionEnded(report.value);
      }
    }

    lemma EnteredCurrent(t: Tracker)
      requires [] in t.states
      ensures EnterTestCase(t).current == []
    {
    }

    /** One pass of the test case. */
    method RunCurrentTest(s: Script, okToFail: bool)
      requires Valid() && unfinishedSections == [] && [] in State().tracker.states
      modifies this`totals, this`history, this`unfinishedSections, tracker, tracker.sections
      ensures Valid() && fresh(tracker.sections - old(tracker.sections)) && unfinishedSections == []
      ensures totals.testCases == old(totals.testCases)
      ensures State() == Pass(old(State()), s, okToFail, config)
    {
      hide TestCaseTracker.Valid, Unwinding, ReplayEnds, EndTest, Invoke;
      var prevAssertions, since := totals.assertions, |history|;
      InvokeTest(s);
      EndUnfinished();
      EndTestCase(prevAssertions, since, okToFail);
    }

    /** Runs a test case until its tracker is completed or the run aborts. What it adds to the totals is one
        test case, counted by its worst result, and its assertions. `ended` tells whether the loop is one that
        ends; the program stays in one that does not, while this method leaves it when that is certain. */
    method RunTest(t: Test) returns (delta: Totals, ended: bool)
      requires unfinishedSections == [] && Distinct(Erase(t.script))
      modifies this, tracker, tracker.sections
      ensures Valid() && fresh(tracker) && fresh(tracker.sections) && unfinishedSections == []
      ensures var start := old(totals.assertions);
              && State() == TestAfter(t, start, config, PassCount(t, start, config))
              && (ended <==> LoopEnds(t, start, config))
              && (ended ==>
                    && start.AtMost(totals.assertions)
                    && delta.testCases == Verdict(totals.assertions.Minus(start))
                    && totals == old(totals).Plus(delta))
      ensures ended ==>
                var was, now := old(totals), totals;
                var failed, tolerated :=
                  now.assertions.failed > was.assertions.failed,
                  now.assertions.failedButOk > was.assertions.failedButOk;
                && now.testCases.failed == was.testCases.failed + (if failed then 1 else 0)
                && now.testCases.failedButOk == was.testCases.failedButOk + (if !failed && tolerated then 1 else 0)
                && now.testCases.passed == was.testCases.passed + (if !failed && !tolerated then 1 else 0)
      ensures ended ==>
                && AssertionsAdded(old(totals.assertions), totals.assertions, t.okToFail, history)
                && TestCaseAdded(old(totals.testCases), totals.testCases, t.okToFail, history)
    {
      hide TestCaseTracker.Valid, Distinct, Erase, Delta, Counts.AtMost, PassCount, Stops, TestAfter;
      hide Verdict, PassBound, AssertionsAdded, TestCaseAdded;
      var prevTotals := totals;
      tracker := new TestCaseTracker(t.name);
      history := [];
      TestNext(t, totals.assertions, config, 0);
      ghost var passes;
      ended, passes := RunPassesToEnd(t, totals.assertions);
      FirstStop(t, prevTotals.assertions, config, passes);
      delta := Totals(ZERO, ZERO);
      if ended {
        TestAdds(t, prevTotals.assertions, config, passes);
        delta := CloseTotals(prevTotals, t.okToFail);
      }
    }

    /** The loop over the passes. */
    method RunPassesToEnd(t: Test, ghost start: Counts) returns (ended: bool, ghost passes: nat)
      requires Valid() && unfinishedSections == [] && State() == TestAfter(t, start, config, 0)
      modifies this`totals, this`history, this`unfinishedSections, tracker, tracker.sections
      ensures Valid() && fresh(tracker.sections - old(tracker.sections)) && unfinishedSections == []
      ensures totals.testCases == old(totals.testCases) && State() == TestAfter(t, start, config, passes)
      ensures 0 < passes <= PassBound(Erase(t.script)) && (ended <==> Stops(t, start, config, passes))
      ensures ended || passes == PassBound(Erase(t.script))
      ensures forall i: nat | 0 < i < passes :: !Stops(t, start, config, i)
    {
      hide TestCaseTracker.Valid, TestAfter, Erase, Stops;
      var bound := PassBound(Erase(t.script));
      var made := 1;
      ended := RunPass(t, start, 0);
      while !ended && made < bound
        invariant Valid() && fresh(tracker.sections - old(tracker.sections)) && unfinishedSections == []
        invariant totals.testCases == old(totals.testCases)
        invariant 0 < made <= bound && State() == TestAfter(t, start, config, made)
        invariant ended <==> Stops(t, start, config, made)
        invariant forall i: nat | 0 < i < made :: !Stops(t, start, config, i)
        decreases bound - made
      {
        ended := RunPass(t, start, made);
        made := made + 1;
      }
      passes := made;
    }

    /** One iteration of the loop, and whether it is the last. */
    method RunPass(t: Test, ghost start: Counts, ghost passes: nat) returns (last: bool)
      requires Valid() && unfinishedSections == [] && State() == TestAfter(t, start, config, passes)
      modifies this`totals, this`history, this`unfinishedSections, tracker, tracker.sections
      ensures Valid() && fresh(tracker.sections - old(tracker.sections)) && unfinishedSections == []
      ensures totals.testCases == old(totals.testCases) && State() == TestAfter(t, start, config, passes + 1)
      ensures last <==> Stops(t, start, config, passes + 1)
    {
      hide TestCaseTracker.Valid, Pass, TestAfter;
      TestNext(t, start, config, passes);
      RootKnown();
      RunCurrentTest(t.script, t.okToFail);
      var completed := tracker.IsCompleted();
      var aborting := Aborting();
      last := completed || aborting;
    }

    /** The difference to the totals before the test, with one test case added to both. */
    method CloseTotals(prevTotals: Totals, ghost okToFail: bool) returns (delta: Totals)
      requires prevTotals.assertions.AtMost(totals.assertions) && prevTotals.testCases == totals.testCases
      requires AssertionsAdded(prevTotals.assertions, totals.assertions, okToFail, history)
      modifies this`totals
      ensures totals.assertions == old(totals.assertions) && totals == prevTotals.Plus(delta)
      ensures delta.testCases == Verdict(totals.assertions.Minus(prevTotals.assertions))
      ensures var failed, tolerated :=
                totals.assertions.failed > prevTotals.assertions.failed,
                totals.assertions.failedButOk > prevTotals.assertions.failedButOk;
              && totals.testCases.failed == prevTotals.testCases.failed + (if failed then 1 else 0)
              && totals.testCases.failedButOk
                 == prevTotals.testCases.failedButOk + (if !failed && tolerated then 1 else 0)
              && totals.testCases.passed == prevTotals.testCases.passed + (if !failed && !tolerated then 1 else 0)
      ensures TestCaseAdded(prevTotals.testCases, totals.testCases, okToFail, history)
    {
      hide AssertionsAdded, TestCaseAdded;
      VerdictAdds(prevTotals.testCases, prevTotals.assertions, totals.assertions, okToFail, history);
      delta := Delta(totals, prevTotals);
      totals := totals.(testCases := totals.testCases.Plus(delta.testCases));
    }
  }

  /** Runs each test whose name has not been run yet, up to the first one at which the run aborts. The
      runner's own sum is the context's totals. `ended` is as for `RunTest`. */
  method RunTests(ts: seq<Test>, config: Config) returns (totals: Totals, context: RunContext, ended: bool)
    requires forall t | t in ts :: Distinct(Erase(t.script))
    ensures var s := SessionOf(ts, config);
            && (ended <==> !s.endless)
            && (ended ==> totals == context.totals == Totals(s.assertions, s.testCases))
    ensures ended ==>
              && (totals.testCases.failed > 0 <==> totals.assertions.failed > 0)
              && (totals.testCases.failedButOk > 0 <==> totals.assertions.failedButOk > 0)
  {
    hide Distinct, Erase, TestAfter, PassCount, Verdict, SessionOf, LoopEnds, AssertionsAdded, TestCaseAdded;
    FailedIff(ts, config);
    context := new RunContext(config);
    totals := Totals(ZERO, ZERO);
    ended := true;
    var alreadyRun: set<Key> := {};
    var i := 0;
    NoneRun(config);
    while i < |ts|
      invariant 0 <= i <= |ts| && ended
      invariant fresh(context) && fresh(context.tracker) && fresh(context.tracker.sections)
      invariant context.unfinishedSections == [] && context.config == config
      invariant totals == context.totals
      invariant SessionOf(ts[..i], config) == Session(totals.assertions, totals.testCases, alreadyRun, false, false)
    {
      SessionNext(ts, config, i);
      if ts[i].name !in alreadyRun {
        var aborting := context.Aborting();
        if aborting {
          StoppedStays(ts, config, i + 1);
          return;
        }
        var delta;
        delta, ended := context.RunTest(ts[i]);
        if !ended {
          StoppedStays(ts, config, i + 1);
          return;
        }
        totals := totals.Plus(delta);
        alreadyRun := alreadyRun + {ts[i].name};
      }
      i := i + 1;
    }
    assert ts[..|ts|] == ts;
  }

  lemma NoneRun(config: Config)
    ensures forall ts: seq<Test> :: SessionOf(ts[..0], config) == NO_TESTS
  {
  }
}
