/** What a test case and a run of tests add to the totals, told from the calls to the reporter. */
module TestTallies {
  import opened TotalsKeeping
  import opened RunnerModel
  import opened RunnerCounts
  import opened TestRuns

  /** The failures among the calls: assertions that failed, and sections that ended without any. */
  function Failures(h: seq<Entry>): nat {
    Results(h, Failed) + Missing(h)
  }

  /** The assertions of a test with the calls `h`. */
  predicate AssertionsAdded(was: Counts, now: Counts, okToFail: bool, h: seq<Entry>) {
    && now.passed == was.passed + Results(h, Ok)
    && now.failed == was.failed + (if okToFail then 0 else Failures(h))
    && now.failedButOk == was.failedButOk + (if okToFail then Failures(h) else 0)
  }

  /** The test itself: one failed test case if there is a failure that counts, one tolerated if there is one
      that does not, one passed if there is none. */
  predicate TestCaseAdded(was: Counts, now: Counts, okToFail: bool, h: seq<Entry>) {
    && now.failed == was.failed + (if Failures(h) > 0 && !okToFail then 1 else 0)
    && now.failedButOk == was.failedButOk + (if Failures(h) > 0 && okToFail then 1 else 0)
    && now.passed == was.passed + (if Failures(h) == 0 then 1 else 0)
  }

  lemma TallyConcat(a: seq<Entry>, b: seq<Entry>)
    ensures Results(a + b, Ok) == Results(a, Ok) + Results(b, Ok) && Failures(a + b) == Failures(a) + Failures(b)
  {
    hide Results, Missing;
    WeightConcat(a, b);
  }

  lemma NothingTallied()
    ensures Results([], Ok) == 0 && Failures([]) == 0
  {
  }

  lemma PassAdds(c: Context, s: Script, okToFail: bool, config: Config, start: Counts)
    requires [] in c.tracker.states && AssertionsAdded(start, c.counts, okToFail, c.history)
    ensures var d := Pass(c, s, okToFail, config); AssertionsAdded(start, d.counts, okToFail, d.history)
  {
    hide Pass, Results, Missing;
    var d := Pass(c, s, okToFail, config);
    PassCounted(c, s, okToFail, config);
    assert d.history == c.history + d.history[|c.history|..];
    TallyConcat(c.history, d.history[|c.history|..]);
  }

  /** After any number of passes the counts have grown by what the calls of the test say. */
  lemma {:induction false} TestAdds(t: Test, start: Counts, config: Config, n: nat)
    ensures var c := TestAfter(t, start, config, n); AssertionsAdded(start, c.counts, t.okToFail, c.history)
    decreases n
  {
    hide TestAfter, Pass, AssertionsAdded;
    if n == 0 {
      TestNext(t, start, config, 0);
      NoneAdded(start, t.okToFail);
    } else {
      TestAdds(t, start, config, n - 1);
      TestNext(t, start, config, n - 1);
      PassAdds(TestAfter(t, start, config, n - 1), t.script, t.okToFail, config, start);
    }
  }

  lemma NoneAdded(start: Counts, okToFail: bool)
    ensures AssertionsAdded(start, start, okToFail, [])
  {
    NothingTallied();
  }

  /** The test case that is counted is the one its calls call for. */
  lemma VerdictAdds(was: Counts, start: Counts, now: Counts, okToFail: bool, h: seq<Entry>)
    requires AssertionsAdded(start, now, okToFail, h)
    ensures start.AtMost(now) && TestCaseAdded(was, was.Plus(Verdict(now.Minus(start))), okToFail, h)
  {
    hide Results, Missing;
  }

  // ---------- a run of several tests ----------

  /** Test `i` is run to its end: it is the first of its name, and the run neither has stopped nor aborts nor
      is in a test that does not end. */
  ghost predicate IsRun(ts: seq<Test>, config: Config, i: nat)
    requires i < |ts|
  {
    var s := SessionOf(ts[..i], config);
    && !s.stopped && !s.endless && ts[i].name !in s.names
    && s.assertions.failed != config.abortAfter && LoopEnds(ts[i], s.assertions, config)
  }

  /** Its calls to the reporter. */
  ghost function Calls(ts: seq<Test>, config: Config, i: nat): seq<Entry>
    requires i < |ts|
  {
    var start := SessionOf(ts[..i], config).assertions;
    TestAfter(ts[i], start, config, PassCount(ts[i], start, config)).history
  }

  /** Test `i` is run, its failures are tolerated, or not, and it has failures, or not. */
  ghost predicate RunsWith(ts: seq<Test>, config: Config, i: nat, okToFail: bool, failing: bool)
    requires i < |ts|
  {
    IsRun(ts, config, i) && ts[i].okToFail == okToFail && (Failures(Calls(ts, config, i)) > 0) == failing
  }

  /** Those of the first `n` tests. */
  ghost function RunWith(ts: seq<Test>, config: Config, n: nat, okToFail: bool, failing: bool): set<nat>
    requires n <= |ts|
  {
    set i: nat | i < n && RunsWith(ts, config, i, okToFail, failing)
  }

  /** The calls of all the tests run whose failures are tolerated, or not. */
  ghost function AllCalls(ts: seq<Test>, config: Config, n: nat, okToFail: bool): seq<Entry>
    requires n <= |ts|
  {
    if n == 0 then []
    else
      AllCalls(ts, config, n - 1, okToFail)
      + if IsRun(ts, config, n - 1) && ts[n - 1].okToFail == okToFail then Calls(ts, config, n - 1) else []
  }

  lemma RunWithNext(ts: seq<Test>, config: Config, n: nat, okToFail: bool, failing: bool)
    requires n < |ts|
    ensures |RunWith(ts, config, n + 1, okToFail, failing)|
            == |RunWith(ts, config, n, okToFail, failing)|
               + if RunsWith(ts, config, n, okToFail, failing) then 1 else 0
  {
    hide RunsWith;
    var before, after := RunWith(ts, config, n, okToFail, failing), RunWith(ts, config, n + 1, okToFail, failing);
    if n in after {
      assert after == before + {n};
    } else {
      assert after == before;
    }
  }

  /** What the totals of the first `n` tests are. */
  ghost predicate Tallied(ts: seq<Test>, config: Config, n: nat)
    requires n <= |ts|
  {
    var s := SessionOf(ts[..n], config);
    var counted, tolerated := AllCalls(ts, config, n, false), AllCalls(ts, config, n, true);
    && s.assertions == Counts(Results(counted, Ok) + Results(tolerated, Ok), Failures(counted), Failures(tolerated))
    && s.testCases == Counts(|RunWith(ts, config, n, false, false)| + |RunWith(ts, config, n, true, false)|,
                             |RunWith(ts, config, n, false, true)|, |RunWith(ts, config, n, true, true)|)
  }

  /** What a test does to the counts of a session. */
  lemma NextAdds(ts: seq<Test>, config: Config, n: nat)
    requires n < |ts|
    ensures var s, r := SessionOf(ts[..n], config), SessionOf(ts[..n + 1], config);
            if IsRun(ts, config, n) then
              && AssertionsAdded(s.assertions, r.assertions, ts[n].okToFail, Calls(ts, config, n))
              && TestCaseAdded(s.testCases, r.testCases, ts[n].okToFail, Calls(ts, config, n))
            else s.assertions == r.assertions && s.testCases == r.testCases
  {
    hide SessionOf, LoopEnds, TestAfter, PassCount, Verdict, AssertionsAdded, TestCaseAdded;
    SessionNext(ts, config, n);
    var s, t := SessionOf(ts[..n], config), ts[n];
    if IsRun(ts, config, n) {
      TestAdds(t, s.assertions, config, PassCount(t, s.assertions, config));
      VerdictAdds(s.testCases, s.assertions,
                  TestAfter(t, s.assertions, config, PassCount(t, s.assertions, config)).counts,
                  t.okToFail, Calls(ts, config, n));
    }
  }

  lemma CallsNext(ts: seq<Test>, config: Config, n: nat, okToFail: bool)
    requires n < |ts|
    ensures var before, after := AllCalls(ts, config, n, okToFail), AllCalls(ts, config, n + 1, okToFail);
            if IsRun(ts, config, n) && ts[n].okToFail == okToFail then
              && Results(after, Ok) == Results(before, Ok) + Results(Calls(ts, config, n), Ok)
              && Failures(after) == Failures(before) + Failures(Calls(ts, config, n))
            else after == before
  {
    hide IsRun, Calls, Results, Missing;
    TallyConcat(AllCalls(ts, config, n, okToFail), Calls(ts, config, n));
  }

  lemma NoTestTallied(ts: seq<Test>, config: Config)
    ensures Tallied(ts, config, 0)
  {
    assert ts[..0] == [];
    NothingTallied();
    assert forall o, f :: RunWith(ts, config, 0, o, f) == {};
  }

  /** The totals of a run of tests: each assertion and each section found without one is counted once, and each
      test run counts as failed, tolerated or passed by whether its calls hold a failure. */
  lemma {:induction false} RunTallied(ts: seq<Test>, config: Config, n: nat)
    requires n <= |ts|
    ensures Tallied(ts, config, n)
    decreases n
  {
    hide IsRun, Calls, Results, Missing, SessionOf, RunWith, AllCalls;
    if n == 0 {
      NoTestTallied(ts, config);
    } else {
      RunTallied(ts, config, n - 1);
      NextAdds(ts, config, n - 1);
      CallsNext(ts, config, n - 1, false);
      CallsNext(ts, config, n - 1, true);
      RunWithNext(ts, config, n - 1, false, false);
      RunWithNext(ts, config, n - 1, false, true);
      RunWithNext(ts, config, n - 1, true, false);
      RunWithNext(ts, config, n - 1, true, true);
    }
  }

  /** A run has failed test cases if and only if it has failed assertions, and tolerated ones if and only if it
      has tolerated ones. */
  lemma {:induction false} FailedIff(ts: seq<Test>, config: Config)
    ensures var s := SessionOf(ts, config);
            && (s.testCases.failed > 0 <==> s.assertions.failed > 0)
            && (s.testCases.failedButOk > 0 <==> s.assertions.failedButOk > 0)
    decreases |ts|
  {
    hide IsRun, Calls, Results, Missing, SessionOf;
    if ts == [] {
      NoTestTallied(ts, config);
      NothingRunYet(config);
    } else {
      var n := |ts| - 1;
      FailedIff(ts[..n], config);
      NextAdds(ts, config, n);
      assert ts[..n + 1] == ts;
    }
  }

  lemma NothingRunYet(config: Config)
    ensures SessionOf([], config) == NO_TESTS
  {
  }
}
