/** How long a test case is run: what ends the loop over its passes, and when nothing does. */
module TestRuns {
  import opened TestBodies
  import opened TrackerModel
  import opened TrackerTheorems
  import opened SectionResults
  import opened KnownSections
  import opened TrackerProgress
  import opened TotalsKeeping
  import opened RunnerModel
  import opened RunnerCounts
  import opened RunnerFlags
  import opened ReplayedMisses
  import opened RunnerRepeats

  datatype Test = Test(name: Key, script: Script, okToFail: bool)

  function TestStart(start: Counts): Context {
    Context(FRESH, start, [])
  }

  /** The context after `n` passes of a test that found the counts at `start`. */
  ghost function TestAfter(t: Test, start: Counts, config: Config, n: nat): (c: Context)
    ensures [] in c.tracker.states && start.AtMost(c.counts)
  {
    RunPasses(TestStart(start), t.script, t.okToFail, config, n)
  }

  lemma TestNext(t: Test, start: Counts, config: Config, n: nat)
    ensures TestAfter(t, start, config, 0) == TestStart(start)
    ensures TestAfter(t, start, config, n + 1) == Pass(TestAfter(t, start, config, n), t.script, t.okToFail, config)
  {
    hide Pass;
  }

  /** What the loop over the passes looks at after `n` of them. */
  ghost predicate Stops(t: Test, start: Counts, config: Config, n: nat) {
    var c := TestAfter(t, start, config, n);
    c.tracker.states[[]] == Completed || c.counts.failed == config.abortAfter
  }

  /** In pass `i` a failing check finds the run aborting and throws. */
  ghost predicate AbortsIn(t: Test, start: Counts, config: Config, i: nat) {
    Unwinding(TestAfter(t, start, config, i), t.script, config).aborted
  }

  // ---------- a test whose failures count ----------

  /** As long as the run does not abort, the tracker goes through the runs of the body. */
  lemma {:induction false} PassesFollow(t: Test, start: Counts, config: Config, n: nat)
    requires forall i: nat | i < n :: !AbortsIn(t, start, config, i)
    ensures TestAfter(t, start, config, n).tracker == After(Erase(t.script), n)
    decreases n
  {
    hide TestAfter, Pass, RunOnce, Unwinding;
    if n == 0 {
      TestNext(t, start, config, 0);
    } else {
      PassesFollow(t, start, config, n - 1);
      TestNext(t, start, config, n - 1);
      assert !AbortsIn(t, start, config, n - 1);
      UnabortedPass(TestAfter(t, start, config, n - 1), t.script, t.okToFail, config);
    }
  }

  lemma UnabortedPass(c: Context, s: Script, okToFail: bool, config: Config)
    requires [] in c.tracker.states && !Unwinding(c, s, config).aborted
    ensures Pass(c, s, okToFail, config).tracker == RunOnce(c.tracker, Erase(s))
  {
    hide Unwinding, RunOnce;
  }

  /** Sections in which a failure was counted miss no assertion. */
  lemma {:induction false} NoneMissing(c: Context, pending: seq<Unfinished>, n: nat, config: Config)
    requires n <= |pending| && n <= |c.tracker.current| && AllBefore(pending, c.counts)
    requires FailedSince(pending, c.counts)
    ensures ReplayEnds(c, pending, n, config).counts == c.counts
    decreases n
  {
    hide HasChildren, LeftState, Replay;
    if n > 0 {
      assert pending[n - 1] in pending;
      NoneMissing(EndSection(c, pending[n - 1], config), pending, n - 1, config);
    }
  }

  lemma AbortFailsFirst(c: Context, s: Script, config: Config)
    requires [] in c.tracker.states && Unwinding(c, s, config).aborted
    ensures var r := Unwinding(c, s, config);
            c.counts.failed < r.context.counts.failed == config.abortAfter
  {
    hide Exec, Invoke;
    AbortFails(Begin(c.(tracker := EnterTestCase(c.tracker)), []), s, config);
  }

  /** A pass in which the run aborts ends with that many failures, if they count, so it is the last. */
  lemma AbortStops(t: Test, start: Counts, config: Config, i: nat)
    requires !t.okToFail && AbortsIn(t, start, config, i)
    ensures TestAfter(t, start, config, i + 1).counts.failed == config.abortAfter
  {
    hide TestAfter, Unwinding, ReplayEnds, FailedSince, HasChildren, Replayable;
    var c := TestAfter(t, start, config, i);
    TestNext(t, start, config, i);
    var r := Unwinding(c, t.script, config);
    AbortFailsFirst(c, t.script, config);
    UnwoundReplayable(c, t.script, config);
    NoneMissing(r.context, r.pending, |r.pending|, config);
  }

  lemma CompletedWhenDone(t: Test, start: Counts, config: Config, n: nat)
    requires Distinct(Erase(t.script)) && n <= TotalRuns(Erase(t.script))
    requires forall i: nat | i < n :: !AbortsIn(t, start, config, i)
    ensures TestAfter(t, start, config, n).tracker.states[[]] == Completed <==> n == TotalRuns(Erase(t.script))
  {
    hide TestAfter, AbortsIn, After, TotalRuns, Distinct;
    PassesFollow(t, start, config, n);
    RunsUntilCompleted(Erase(t.script));
  }

  /** So a test whose failures count is run at most as often as its body asks for; so is one whose failures
      are tolerated if the run does not abort in it. */
  lemma TestEnds(t: Test, start: Counts, config: Config) returns (n: nat)
    requires Distinct(Erase(t.script))
    requires !t.okToFail || forall i: nat | i < TotalRuns(Erase(t.script)) :: !AbortsIn(t, start, config, i)
    ensures 0 < n <= TotalRuns(Erase(t.script)) && Stops(t, start, config, n)
  {
    hide TestAfter, AbortsIn, TotalRuns, Distinct;
    n := TotalRuns(Erase(t.script));
    if i: nat :| i < n && AbortsIn(t, start, config, i) {
      AbortStops(t, start, config, i);
      n := i + 1;
    } else {
      CompletedWhenDone(t, start, config, n);
    }
  }

  // ---------- a test whose failures are tolerated ----------

  lemma FailedStays(t: Test, start: Counts, config: Config, n: nat)
    requires t.okToFail
    ensures TestAfter(t, start, config, n).counts.failed == start.failed
  {
    hide RunPasses;
    PassesClassified(TestStart(start), t.script, t.okToFail, config, n);
  }

  /** Pass `n` leaves all sections as they were. */
  ghost predicate Idle(t: Test, start: Counts, config: Config, n: nat) {
    SameSections(TestAfter(t, start, config, n).tracker.states, TestAfter(t, start, config, n + 1).tracker.states)
  }

  lemma IdleNext(t: Test, start: Counts, config: Config, n: nat)
    requires t.okToFail && Idle(t, start, config, n)
    ensures Idle(t, start, config, n + 1)
    ensures Stops(t, start, config, n + 1) <==> Stops(t, start, config, n + 2)
  {
    hide TestAfter, Pass, SameSections;
    var c, d := TestAfter(t, start, config, n), TestAfter(t, start, config, n + 1);
    FailedStays(t, start, config, n);
    FailedStays(t, start, config, n + 1);
    FailedStays(t, start, config, n + 2);
    TestNext(t, start, config, n);
    TestNext(t, start, config, n + 1);
    PassAlike(c, d, t.script, t.okToFail, config,
              c.counts.passed - d.counts.passed, c.counts.failedButOk - d.counts.failedButOk);
  }

  /** After an idle pass nothing ever changes again. */
  lemma {:induction false} IdleForever(t: Test, start: Counts, config: Config, n: nat, m: nat)
    requires t.okToFail && Idle(t, start, config, n) && n < m
    ensures Idle(t, start, config, m - 1)
    ensures Stops(t, start, config, m) <==> Stops(t, start, config, n + 1)
    decreases m
  {
    hide Idle, Stops;
    if n + 1 < m {
      IdleForever(t, start, config, n, m - 1);
      IdleNext(t, start, config, m - 2);
    }
  }

  ghost function SectionProgress(t: Test, start: Counts, config: Config, n: nat): nat {
    Progress(TestAfter(t, start, config, n).tracker.states, [], Erase(t.script))
  }

  lemma ProgressOrIdle(t: Test, start: Counts, config: Config, n: nat)
    requires Distinct(Erase(t.script))
    ensures SectionProgress(t, start, config, n) <= SectionProgress(t, start, config, n + 1)
    ensures SectionProgress(t, start, config, n) == SectionProgress(t, start, config, n + 1) ==>
              Idle(t, start, config, n)
  {
    hide Progress, Rank, Distinct, Unwinding, RunOnce, Advances, Fits;
    var b, c, d := Erase(t.script), TestAfter(t, start, config, n), TestAfter(t, start, config, n + 1);
    PassesFamiliar(TestStart(start), t.script, t.okToFail, config, n);
    PassesFamiliar(TestStart(start), t.script, t.okToFail, config, n + 1);
    TestNext(t, start, config, n);
    hide TestAfter;
    PassAdvances(c.tracker, Unwinding(c, t.script, config).course);
    ProgressGrows(c.tracker.states, d.tracker.states, [], b);
    if SectionProgress(t, start, config, n) == SectionProgress(t, start, config, n + 1) {
      NoProgress(c.tracker.states, d.tracker.states, b);
    }
  }

  lemma {:induction false} ProgressWithout(t: Test, start: Counts, config: Config, n: nat)
    requires Distinct(Erase(t.script)) && forall i: nat | i < n :: !Idle(t, start, config, i)
    ensures SectionProgress(t, start, config, n) >= n
    decreases n
  {
    hide SectionProgress, Idle, Distinct;
    if n > 0 {
      ProgressWithout(t, start, config, n - 1);
      assert !Idle(t, start, config, n - 1);
      ProgressOrIdle(t, start, config, n - 1);
    }
  }

  /** No more passes than this can all move some section on, and one more. */
  function PassBound(b: Body): (n: nat)
    ensures n > 0
  {
    4 * SectionCount(b) + 1
  }

  lemma SomeIdle(t: Test, start: Counts, config: Config) returns (i: nat)
    requires Distinct(Erase(t.script))
    ensures i < PassBound(Erase(t.script)) && Idle(t, start, config, i)
  {
    hide TestAfter, Idle, Distinct, Progress;
    var b := Erase(t.script);
    if !exists j: nat :: j < PassBound(b) && Idle(t, start, config, j) {
      ProgressWithout(t, start, config, PassBound(b));
      ProgressBound(TestAfter(t, start, config, PassBound(b)).tracker.states, [], b);
      assert false;
    }
    i :| i < PassBound(b) && Idle(t, start, config, i);
  }

  /** A loop that ends at all ends within that many passes. */
  lemma EndsInTime(t: Test, start: Counts, config: Config, m: nat) returns (n: nat)
    requires Distinct(Erase(t.script)) && m > 0 && Stops(t, start, config, m)
    ensures 0 < n <= PassBound(Erase(t.script)) && Stops(t, start, config, n)
  {
    hide Stops, Idle, Distinct, AbortsIn;
    if !t.okToFail {
      n := TestEnds(t, start, config);
      TotalRunsBound(Erase(t.script));
    } else {
      var i := SomeIdle(t, start, config);
      n := m;
      if m > i {
        IdleForever(t, start, config, i, m);
        n := i + 1;
      }
    }
  }

  /** The loop never ends if and only if the failures of the test are tolerated and some pass, with the test
      case still to be completed after it, leaves all sections as they were. */
  lemma EndlessIff(t: Test, start: Counts, config: Config)
    requires Distinct(Erase(t.script))
    ensures (forall n: nat | n > 0 :: !Stops(t, start, config, n))
            <==> t.okToFail && exists i: nat :: i < PassBound(Erase(t.script)) && IdleBeforeStop(t, start, config, i)
  {
    hide Stops, Idle, Distinct, AbortsIn;
    if forall n: nat | n > 0 :: !Stops(t, start, config, n) {
      if !t.okToFail {
        var n := TestEnds(t, start, config);
      }
      var i := SomeIdle(t, start, config);
      assert IdleBeforeStop(t, start, config, i);
    }
    if t.okToFail && exists i: nat :: i < PassBound(Erase(t.script)) && IdleBeforeStop(t, start, config, i) {
      var i: nat :| i < PassBound(Erase(t.script)) && IdleBeforeStop(t, start, config, i);
      forall n: nat | n > 0 ensures !Stops(t, start, config, n) {
        if n > i {
          IdleForever(t, start, config, i, n);
        }
      }
    }
  }

  ghost predicate IdleBeforeStop(t: Test, start: Counts, config: Config, i: nat) {
    Idle(t, start, config, i) && forall n: nat | 0 < n <= i + 1 :: !Stops(t, start, config, n)
  }

  // ---------- the number of passes ----------

  /** The first number from `n` on at which `stops` holds, or `limit`. */
  ghost function FirstFrom(stops: nat -> bool, n: nat, limit: nat): (m: nat)
    requires n <= limit
    ensures n <= m <= limit && (m == limit || stops(m)) && forall i: nat | n <= i < m :: !stops(i)
    decreases limit - n
  {
    if n == limit || stops(n) then n else FirstFrom(stops, n + 1, limit)
  }

  /** How many passes the loop makes, if it ends; otherwise as many as show that it does not. */
  ghost function PassCount(t: Test, start: Counts, config: Config): (n: nat)
    ensures 0 < n <= PassBound(Erase(t.script))
    ensures n == PassBound(Erase(t.script)) || Stops(t, start, config, n)
    ensures forall i: nat | 0 < i < n :: !Stops(t, start, config, i)
  {
    hide TestAfter, Erase;
    var stops := (i: nat) => Stops(t, start, config, i);
    var m := FirstFrom(stops, 1, PassBound(Erase(t.script)));
    assert forall i: nat | 0 < i < m :: !Stops(t, start, config, i) by {
      forall i: nat | 0 < i < m ensures !Stops(t, start, config, i) {
        assert !stops(i);
      }
    }
    m
  }

  lemma FirstStop(t: Test, start: Counts, config: Config, n: nat)
    requires 0 < n <= PassBound(Erase(t.script))
    requires n == PassBound(Erase(t.script)) || Stops(t, start, config, n)
    requires forall i: nat | 0 < i < n :: !Stops(t, start, config, i)
    ensures PassCount(t, start, config) == n
  {
    hide Stops, FirstFrom, PassBound;
  }

  ghost predicate LoopEnds(t: Test, start: Counts, config: Config) {
    Stops(t, start, config, PassCount(t, start, config))
  }

  /** The loop ends if and only if there is any number of passes at which it would. */
  lemma EndsIff(t: Test, start: Counts, config: Config)
    requires Distinct(Erase(t.script))
    ensures LoopEnds(t, start, config) <==> exists n: nat :: n > 0 && Stops(t, start, config, n)
  {
    hide Stops, Distinct, PassBound;
    if n: nat :| n > 0 && Stops(t, start, config, n) {
      var m := EndsInTime(t, start, config, n);
      assert PassCount(t, start, config) <= m;
    }
  }

  /** It does for a test whose failures count, within the runs of its body. */
  lemma CountedTestEnds(t: Test, start: Counts, config: Config)
    requires Distinct(Erase(t.script)) && !t.okToFail
    ensures LoopEnds(t, start, config) && PassCount(t, start, config) <= TotalRuns(Erase(t.script))
  {
    hide Stops, Distinct, TotalRuns, PassBound;
    var n := TestEnds(t, start, config);
    EndsIff(t, start, config);
  }

  /** One test case, counted by the worst of its assertions. */
  function Verdict(a: Counts): (c: Counts)
    ensures c.Total() == 1
  {
    if a.failed > 0 then Counts(0, 1, 0) else if a.failedButOk > 0 then Counts(0, 0, 1) else Counts(1, 0, 0)
  }

  // ---------- a run of several tests ----------

  /** The counts, the names run, whether the run has stopped at a test not run yet, and whether it is in a test
      that does not end. */
  datatype Session = Session(assertions: Counts, testCases: Counts, names: set<Key>, stopped: bool, endless: bool)

  const NO_TESTS := Session(ZERO, ZERO, {}, false, false)

  /** What running the tests `ts` in order comes to: each name once, until the run aborts. */
  ghost function SessionOf(ts: seq<Test>, config: Config): (s: Session)
    decreases |ts|
  {
    if ts == [] then NO_TESTS else NextTest(SessionOf(ts[..|ts| - 1], config), ts[|ts| - 1], config)
  }

  ghost function NextTest(s: Session, t: Test, config: Config): Session {
    if s.stopped || s.endless || t.name in s.names then s
    else if s.assertions.failed == config.abortAfter then s.(stopped := true)
    else if !LoopEnds(t, s.assertions, config) then s.(endless := true)
    else
      var after := TestAfter(t, s.assertions, config, PassCount(t, s.assertions, config)).counts;
      Session(after, s.testCases.Plus(Verdict(after.Minus(s.assertions))), s.names + {t.name}, false, false)
  }

  lemma SessionNext(ts: seq<Test>, config: Config, i: nat)
    requires i < |ts|
    ensures SessionOf(ts[..i + 1], config) == NextTest(SessionOf(ts[..i], config), ts[i], config)
  {
    assert ts[..i + 1][..i] == ts[..i];
  }

  /** Once stopped, or in a test without end, a run stays as it is. */
  lemma {:induction false} StoppedStays(ts: seq<Test>, config: Config, i: nat)
    requires i <= |ts| && (SessionOf(ts[..i], config).stopped || SessionOf(ts[..i], config).endless)
    ensures SessionOf(ts, config) == SessionOf(ts[..i], config)
    decreases |ts|
  {
    hide LoopEnds, TestAfter, PassCount;
    if i < |ts| {
      assert ts[..|ts| - 1][..i] == ts[..i];
      StoppedStays(ts[..|ts| - 1], config, i);
    } else {
      assert ts[..i] == ts;
    }
  }

  lemma NextKeeps(s: Session, t: Test, config: Config)
    requires s.testCases.Total() == |s.names| && (s.stopped ==> s.assertions.failed == config.abortAfter)
    ensures var n := NextTest(s, t, config);
            && n.testCases.Total() == |n.names| && (n.stopped ==> n.assertions.failed == config.abortAfter)
            && s.names <= n.names <= s.names + {t.name}
            && (!n.stopped && !n.endless ==> !s.stopped && !s.endless && t.name in n.names)
            && (n.endless ==> s.endless || t.okToFail || !Distinct(Erase(t.script)))
  {
    hide TestAfter, PassCount, Verdict, LoopEnds, Distinct;
    if !t.okToFail && Distinct(Erase(t.script)) {
      CountedTestEnds(t, s.assertions, config);
    }
  }

  function Names(ts: seq<Test>): set<Key> {
    set t | t in ts :: t.name
  }

  /** A run counts one test case for each name it has run, and unless it stopped or does not end these are all
      names. It can be endless only at a test whose failures are tolerated. */
  lemma {:induction false} OneForEachName(ts: seq<Test>, config: Config)
    ensures var s := SessionOf(ts, config);
            && s.testCases.Total() == |s.names| && s.names <= Names(ts)
            && (s.stopped ==> s.assertions.failed == config.abortAfter)
            && (!s.stopped && !s.endless ==> s.names == Names(ts))
            && (s.endless ==> exists t :: t in ts && (t.okToFail || !Distinct(Erase(t.script))))
    decreases |ts|
  {
    hide NextTest, Counts.Total, Distinct, Erase;
    if ts == [] {
      NothingRun();
    } else {
      var before, last := ts[..|ts| - 1], ts[|ts| - 1];
      OneForEachName(before, config);
      NextKeeps(SessionOf(before, config), last, config);
      assert ts == before + [last] && last in ts;
      assert Names(ts) == Names(before) + {last.name};
    }
  }

  lemma NothingRun()
    ensures ZERO.Total() == 0
  {
  }

  // ---------- a run past its abort count ----------

  lemma FailedGrows(t: Test, start: Counts, config: Config, n: nat)
    ensures start.failed <= TestAfter(t, start, config, n).counts.failed
  {
    hide RunPasses;
  }

  /** A run with more failures than it is to abort at never stops for them. */
  lemma {:induction false} PastAbort(ts: seq<Test>, config: Config, i: nat)
    requires i <= |ts| && !SessionOf(ts[..i], config).stopped
    requires SessionOf(ts[..i], config).assertions.failed > config.abortAfter
    ensures !SessionOf(ts, config).stopped && SessionOf(ts, config).assertions.failed > config.abortAfter
    decreases |ts|
  {
    hide TestAfter, PassCount, Verdict, LoopEnds;
    if i < |ts| {
      var before := ts[..|ts| - 1];
      assert before[..i] == ts[..i];
      PastAbort(before, config, i);
      var s := SessionOf(before, config);
      FailedGrows(ts[|ts| - 1], s.assertions, config, PassCount(ts[|ts| - 1], s.assertions, config));
    } else {
      assert ts[..i] == ts;
    }
  }
}
