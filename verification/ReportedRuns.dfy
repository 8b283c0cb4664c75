/** The runner with a cumulative reporter: what the reporter holds at the end of a test case. */
module ReportedRuns {
  import opened TestBodies
  import opened TrackerModel
  import opened TrackerTheorems
  import opened ThrownRuns
  import opened TotalsKeeping
  import opened RunnerModel
  import opened RunnerEvents
  import opened TestRuns
  import opened CumulativeReporting
  import opened ReporterShape

  /** Makes the calls of a test case to a reporter that has none open. */
  method Deliver(src: Source, h: seq<Entry>, reporter: CumulativeReporter)
    requires reporter.Valid() && reporter.shape == EMPTY && Trie.Inside(Events(src, h))
    modifies reporter, reporter.nodes
    ensures reporter.Valid() && reporter.shape == ShapeOf(Events(src, h))
  {
    hide CumulativeReporter.Valid, Events, ShapeOf, Step, Trie.Inside, Trie.Where;
    reporter.NodesCounted();
    NoEvents(src);
    var i := 0;
    while i < |h|
      invariant 0 <= i <= |h|
      invariant reporter.Valid() && forall j | 0 <= j < |reporter.nodes| :: fresh(reporter.nodes[j])
      invariant reporter.shape == ShapeOf(Events(src, h[..i]))
    {
      EventsUpTo(src, h, i);
      reporter.NodesCounted();
      match ToEvent(src, h[i]) {
        case Starting(info) => reporter.SectionStarting(info);
        case Assertion(id) => reporter.AssertionEnded(id);
        case Ended(stats) => reporter.SectionEnded(stats);
      }
      i := i + 1;
    }
    assert h[..|h|] == h;
  }

  lemma NoEvents(src: Source)
    ensures ShapeOf(Events(src, [])) == EMPTY
  {
  }

  /** The next call, which comes inside a section unless it begins one. */
  lemma EventsUpTo(src: Source, h: seq<Entry>, i: nat)
    requires i < |h| && Trie.Inside(Events(src, h))
    ensures var before := Events(src, h[..i]);
            && ShapeOf(Events(src, h[..i + 1])) == Step(ShapeOf(before), ToEvent(src, h[i]))
            && (ToEvent(src, h[i]).Starting? || ShapeOf(before).stack != [])
  {
    hide ShapeOf, Step, Trie.Where;
    var before := Events(src, h[..i]);
    assert h[..i + 1] == h[..i] + [h[i]];
    EventsNext(src, h[..i], h[i]);
    ShapeNext(before, ToEvent(src, h[i]));
    Trie.WhereNext(before, ToEvent(src, h[i]));
    InsideBefore(src, h, i + 1);
    StackDepth(before);
  }

  lemma {:induction false} InsideBefore(src: Source, h: seq<Entry>, i: nat)
    requires i <= |h| && Trie.Inside(Events(src, h))
    ensures Trie.Inside(Events(src, h[..i]))
    decreases |h|
  {
    hide Trie.Where, ToEvent;
    if i < |h| {
      var last := |h| - 1;
      assert h == h[..last] + [h[last]];
      EventsNext(src, h[..last], h[last]);
      Trie.WhereNext(Events(src, h[..last]), ToEvent(src, h[last]));
      InsideBefore(src, h[..last], i);
      assert h[..last][..i] == h[..i];
    } else {
      assert h[..i] == h;
    }
  }

  /** Up to the first pass in which the run aborts, the sections that a pass leaves to an exception are those
      the body leaves. */
  lemma LeftByBody(t: Test, start: Counts, config: Config, i: nat)
    requires Distinct(Erase(t.script)) && i < TotalRuns(Erase(t.script))
    requires forall j: nat | j <= i :: !AbortsIn(t, start, config, j)
    ensures LeftBy(TestStart(start), t.script, t.okToFail, config, i) == LeftPath(Erase(t.script), i)
  {
    hide Unwinding, RunPasses, After, TotalRuns, LeftPath, Distinct, LeftIn;
    PassesFollow(t, start, config, i);
    assert !AbortsIn(t, start, config, i);
    LeftInBody(TestAfter(t, start, config, i), t.script, i, config);
  }

  /** After any number of passes of a test case its reporter has no section open and holds every assertion of
      those passes once. It has held the tree of the sections begun so far after each call if and only if in
      no pass the lines of the sections that an exception left differ from their own reverse. */
  lemma TestReportedIff(src: Source, t: Test, start: Counts, config: Config, n: nat)
    ensures var log := Events(src, TestAfter(t, start, config, n).history);
            && Trie.Inside(log) && ShapeOf(log).stack == [] && (n > 0 ==> ShapeOf(log).nodes != [])
            && Held(ShapeOf(log).nodes) == Trie.AssertionCount(log)
            && ((forall k | 0 <= k <= |log| :: IsTrie(log[..k]))
                <==> AllReadBack(src, TestStart(start), t.script, t.okToFail, config, n))
  {
    hide ShapeOf, IsTrie, Held, AllReadBack, RunPasses, Events;
    hide Trie.Where, Trie.Inside, Trie.WellNested, Trie.Palindrome;
    LogNestedIff(src, TestStart(start), t.script, t.okToFail, config, n);
    var log := Events(src, TestAfter(t, start, config, n).history);
    StackDepth(log);
    NoAssertionLost(log);
    TrieIff(log);
    if n > 0 {
      PassReports(src, t, start, config, n);
      BegunHasNode(log);
    }
  }

  lemma PassReports(src: Source, t: Test, start: Counts, config: Config, n: nat)
    requires n > 0
    ensures Events(src, TestAfter(t, start, config, n).history) != []
  {
    hide Unwinding, ReplayEnds, ToEvent;
  }

  /** For a body that leaves two sections under different lines the reporter does not hold that tree. */
  lemma CrossedTest(src: Source, t: Test, start: Counts, config: Config)
    requires t.script == TWO_LEFT && src.line("a") != src.line("b")
    ensures NotAlwaysTrie(Events(src, TestAfter(t, start, config, 1).history))
  {
    hide *;
    var h := TestAfter(t, start, config, 1).history;
    var c := TestStart(start);
    assert h == Pass(c, t.script, t.okToFail, config).history by {
      TestNext(t, start, config, 0);
    }
    StartIsFresh(start);
    CrossedEnds(src, c, t.script, t.okToFail, config);
    NotNested(src, h);
  }

  lemma StartIsFresh(start: Counts)
    ensures TestStart(start).tracker == FRESH && TestStart(start).history == []
  {
  }

  ghost predicate NotAlwaysTrie(log: seq<Trie.Event>) {
    exists k :: 0 <= k <= |log| && !IsTrie(log[..k])
  }

  lemma NotNested(src: Source, h: seq<Entry>)
    requires Closed(src, h, false)
    ensures NotAlwaysTrie(Events(src, h))
  {
    hide IsTrie, Events, Trie.Where, Trie.WellNested, Trie.Inside;
    var log := Events(src, h);
    TrieIff(log);
    var k :| 0 <= k <= |log| && !IsTrie(log[..k]);
  }
}
