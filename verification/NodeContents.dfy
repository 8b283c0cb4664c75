/** What the nodes of a reporter that mirrors the sections hold: assertions and children in the order of the
    calls, and the statistics of the last end, which are what the runner counted. */
module NodeContents {
  import opened TrackerModel
  import opened TotalsKeeping
  import opened RunnerModel
  import opened RunnerCounts
  import opened RunnerEvents
  import opened ReporterShape
  import opened TestRuns

  // ---------- in terms of the log ----------

  lemma {:induction false} AssertionsGrow(log: seq<Trie.Event>, k: nat, p: Trie.Path)
    requires k <= |log|
    ensures Trie.AssertionsAt(log[..k], p) <= Trie.AssertionsAt(log, p)
    decreases |log|
  {
    if k == |log| {
      assert log[..k] == log;
    } else {
      var n := |log| - 1;
      AssertionsGrow(log[..n], k, p);
      assert log[..n][..k] == log[..k];
    }
  }

  /** An assertion stands behind those made before it in the same section, and before all others. */
  lemma AssertionPlaced(log: seq<Trie.Event>, k: nat, p: Trie.Path)
    requires k < |log| && log[k].Assertion? && Trie.Where(log[..k]) == Trie.At(p)
    ensures Trie.AssertionsAt(log[..k], p) + [log[k].id] <= Trie.AssertionsAt(log, p)
  {
    hide Trie.Where;
    assert log[..k + 1] == log[..k] + [log[k]];
    Trie.AtNext(log[..k], log[k], p);
    AssertionsGrow(log, k + 1, p);
  }

  lemma {:induction false} ChildrenGrow(log: seq<Trie.Event>, k: nat, p: Trie.Path)
    requires k <= |log|
    ensures Trie.ChildLines(log[..k], p) <= Trie.ChildLines(log, p)
    decreases |log|
  {
    if k == |log| {
      assert log[..k] == log;
    } else {
      var n := |log| - 1;
      ChildrenGrow(log[..n], k, p);
      assert log[..n][..k] == log[..k];
    }
  }

  /** A section begun for the first time stands behind the children begun before it. */
  lemma ChildPlaced(log: seq<Trie.Event>, k: nat, p: Trie.Path)
    requires k < |log| && log[k].Starting? && Trie.Where(log[..k]) == Trie.At(p)
    requires p + [log[k].info.lineInfo] !in Trie.Known(log[..k])
    ensures Trie.ChildLines(log[..k], p) + [log[k].info.lineInfo] <= Trie.ChildLines(log, p)
  {
    hide Trie.Where, Trie.Known;
    assert log[..k + 1] == log[..k] + [log[k]];
    Trie.ChildrenAreKnown(log[..k], p, log[k].info.lineInfo);
    Trie.AtNext(log[..k], log[k], p);
    ChildrenGrow(log, k + 1, p);
  }

  /** No section at `p` ends from call `k` on. */
  ghost predicate NoEndAt(log: seq<Trie.Event>, k: nat, p: Trie.Path) {
    forall j | k <= j < |log| && log[j].Ended? :: Trie.Where(log[..j]) != Trie.At(p)
  }

  lemma {:induction false} StatsStay(log: seq<Trie.Event>, k: nat, p: Trie.Path)
    requires k <= |log| && p in Trie.Known(log[..k]) && NoEndAt(log, k, p)
    ensures p in Trie.Known(log) && Trie.StatsAt(log, p) == Trie.StatsAt(log[..k], p)
    decreases |log|
  {
    hide Trie.Where, Trie.StatsAt, Trie.Known;
    if k == |log| {
      assert log[..k] == log;
    } else {
      var n := |log| - 1;
      var before := log[..n];
      assert before[..k] == log[..k] && log == before + [log[n]];
      assert NoEndAt(before, k, p) by {
        forall j | k <= j < n && before[j].Ended? ensures Trie.Where(before[..j]) != Trie.At(p) {
          assert before[..j] == log[..j];
        }
      }
      StatsStay(before, k, p);
      Trie.WhereNext(before, log[n]);
      Trie.StatsNext(before, log[n], p);
    }
  }

  /** The statistics of a section are those of its last end. */
  lemma LastEndStays(log: seq<Trie.Event>, k: nat, p: Trie.Path)
    requires k < |log| && log[k].Ended? && Trie.Where(log[..k]) == Trie.At(p) && NoEndAt(log, k + 1, p)
    ensures p in Trie.Known(log) && Trie.StatsAt(log, p) == log[k].stats
  {
    hide Trie.Where, Trie.StatsAt, Trie.Known, NoEndAt;
    assert log[..k + 1] == log[..k] + [log[k]];
    Trie.InsideIsKnown(log[..k]);
    assert p[..|p|] == p;
    Trie.WhereNext(log[..k], log[k]);
    Trie.StatsNext(log[..k], log[k], p);
    StatsStay(log, k + 1, p);
  }

  /** Until it ends, a section has those of its first begin: no assertion. */
  lemma BegunStats(log: seq<Trie.Event>, k: nat, p: Trie.Path)
    requires k < |log| && log[k].Starting? && Trie.Moved(Trie.Where(log[..k]), log[k]) == Trie.At(p)
    requires p !in Trie.Known(log[..k]) && NoEndAt(log, k + 1, p)
    ensures p in Trie.Known(log)
    ensures Trie.StatsAt(log, p) == Trie.SectionStats(log[k].info, Counts(0, 0, 0), false)
  {
    hide Trie.Where, Trie.StatsAt, Trie.Known, NoEndAt;
    assert log[..k + 1] == log[..k] + [log[k]];
    Trie.WhereNext(log[..k], log[k]);
    Trie.StatsNext(log[..k], log[k], p);
    StatsStay(log, k + 1, p);
  }

  // ---------- in terms of the runner ----------

  /** The reporter tells the results apart. */
  lemma CodesDiffer(r: Result, s: Result)
    ensures Code(r) == Code(s) <==> r == s
  {
  }

  /** Every end of a section below the test case is reported honestly. */
  ghost predicate SectionsHonest(h: seq<Entry>, config: Config) {
    forall j | 0 <= j < |h| && h[j].Ended? && h[j].path != [] :: Honest(h, j, config)
  }

  lemma HonestStays(h: seq<Entry>, g: seq<Entry>, j: nat, config: Config)
    requires h <= g && j < |h| && Honest(h, j, config)
    ensures Honest(g, j, config)
  {
    hide Weight;
    if h[j].Ended? {
      assert h[h[j].since..j] == g[h[j].since..j];
    }
  }

  lemma PassEnds(c: Context, s: Script, okToFail: bool, config: Config)
    requires [] in c.tracker.states
    ensures var h := Pass(c, s, okToFail, config).history;
            && c.history < h && h[|h| - 1].Ended? && h[|h| - 1].path == []
            && AllHonest(h[..|h| - 1], |c.history|, config)
  {
    hide Pass, Honest, AllHonest, Weight, Unwinding, RunOnce;
    PassHonest(c, s, okToFail, config);
  }

  lemma PassSectionsHonest(c: Context, s: Script, okToFail: bool, config: Config)
    requires [] in c.tracker.states && SectionsHonest(c.history, config)
    ensures SectionsHonest(Pass(c, s, okToFail, config).history, config)
  {
    PassEnds(c, s, okToFail, config);
    hide Pass, Honest, Unwinding, RunOnce;
    var h := Pass(c, s, okToFail, config).history;
    forall j | 0 <= j < |h| && h[j].Ended? && h[j].path != [] ensures Honest(h, j, config) {
      if j < |c.history| {
        HonestStays(c.history, h, j, config);
      } else {
        assert j < |h| - 1;
        HonestStays(h[..|h| - 1], h, j, config);
      }
    }
  }

  lemma {:induction false} TestSectionsHonest(t: Test, start: Counts, config: Config, n: nat)
    ensures SectionsHonest(TestAfter(t, start, config, n).history, config)
    decreases n
  {
    hide TestAfter, Pass, SectionsHonest;
    if n == 0 {
      TestNext(t, start, config, 0);
      assert SectionsHonest([], config) by { NothingHonest(config); }
    } else {
      TestSectionsHonest(t, start, config, n - 1);
      TestNext(t, start, config, n - 1);
      PassSectionsHonest(TestAfter(t, start, config, n - 1), t.script, t.okToFail, config);
    }
  }

  lemma NothingHonest(config: Config)
    ensures SectionsHonest([], config)
  {
  }

  lemma {:induction false} EventsAre(src: Source, h: seq<Entry>)
    ensures |Events(src, h)| == |h|
    ensures forall j | 0 <= j < |h| :: Events(src, h)[j] == ToEvent(src, h[j])
    decreases |h|
  {
    hide ToEvent;
    if h != [] {
      EventsAre(src, h[..|h| - 1]);
    }
  }

  /** The node of a section, at the end of any number of passes: if the reporter mirrors the sections and the
      section last ended in its own place, the node carries its name and line, counts the assertions that
      passed and failed between the begin and that end and every section found without one in between, itself
      included, and says whether it was one. */
  lemma NodeReports(src: Source, t: Test, start: Counts, config: Config, n: nat, j: nat, i: nat)
    requires var h := TestAfter(t, start, config, n).history;
             var log := Events(src, h);
             && j < |h| && j < |log| && h[j].Ended? && h[j].path != []
             && var q := Lines(src, h[j].path);
                && Trie.Where(log[..j]) == Trie.At(q) && NoEndAt(log, j + 1, q)
                && IsTrie(log) && i < |Paths(log)| && Paths(log)[i] == q
    ensures var h := TestAfter(t, start, config, n).history;
            var stats, e := ShapeOf(Events(src, h)).nodes[i].stats, h[j];
            var key := e.path[|e.path| - 1];
            && e.since < j && h[e.since] == Begun(e.path)
            && var calls := h[e.since..j];
               && stats.info.name == key && stats.info.lineInfo == src.line(key)
               && stats.assertions.passed == Results(calls, Ok)
               && stats.assertions.failed == Results(calls, Failed) + Missing(calls) + (if e.missing then 1 else 0)
               && stats.assertions.failedButOk == 0
               && stats.missingAssertions == e.missing
  {
    hide TestAfter, Trie.Where, Trie.StatsAt, Results, Missing, NoEndAt, ShapeOf, Events, Paths, Trie.Known;
    var h := TestAfter(t, start, config, n).history;
    var log := Events(src, h);
    TestSectionsHonest(t, start, config, n);
    assert Honest(h, j, config);
    EventsAre(src, h);
    LastEndStays(log, j, Lines(src, h[j].path));
    assert Mirrors(log, i);
  }
}
