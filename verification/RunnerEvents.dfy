/** The runner's calls as the cumulative reporter sees them: when they are well nested. */
module RunnerEvents {
  import opened TestBodies
  import opened TrackerModel
  import opened TrackerTheorems
  import opened ThrownRuns
  import opened TotalsKeeping
  import opened RunnerModel
  import Trie = SectionTrie

  /** Where the test case stands in the source, and, since the key of a section is made of its name and its
      line, where a section stands. */
  datatype Source = Source(root: Trie.SectionInfo, line: Key -> Trie.LineInfo)

  function Lines(src: Source, path: Path): (lines: Trie.Path)
    ensures |lines| == |path| && forall i | 0 <= i < |path| :: lines[i] == src.line(path[i])
  {
    seq(|path|, i requires 0 <= i < |path| => src.line(path[i]))
  }

  function Info(src: Source, path: Path): Trie.SectionInfo {
    if path == [] then src.root else Trie.SectionInfo(src.line(path[|path| - 1]), path[|path| - 1])
  }

  function Code(r: Result): int {
    match r case Ok => 0 case Failed => 1 case Suppressed => 2
  }

  function ToEvent(src: Source, e: Entry): Trie.Event {
    match e
    case Begun(path) => Trie.Starting(Info(src, path))
    case Asserted(result) => Trie.Assertion(Code(result))
    case Ended(path, _, _, assertions, missing) =>
      Trie.Ended(Trie.SectionStats(Info(src, path), assertions, missing))
  }

  function Events(src: Source, h: seq<Entry>): seq<Trie.Event> {
    if h == [] then [] else Events(src, h[..|h| - 1]) + [ToEvent(src, h[|h| - 1])]
  }

  lemma EventsNext(src: Source, h: seq<Entry>, e: Entry)
    ensures Events(src, h + [e]) == Events(src, h) + [ToEvent(src, e)]
  {
    assert (h + [e])[..|h|] == h;
  }

  /** The reporter's log stands in the section at `p`; `good` says whether it is well nested. */
  ghost predicate Stands(src: Source, h: seq<Entry>, p: Path, good: bool) {
    && Trie.Where(Events(src, h)) == Trie.At(Lines(src, p))
    && Trie.Inside(Events(src, h)) && Trie.WellNested(Events(src, h)) == good
  }

  lemma StandsAfter(src: Source, h: seq<Entry>, p: Path, good: bool, e: Entry)
    requires Stands(src, h, p, good)
    ensures e.Begun? && e.path != [] && e.path[..|e.path| - 1] == p ==> Stands(src, h + [e], e.path, good)
    ensures e.Asserted? ==> Stands(src, h + [e], p, good)
    ensures e.Ended? && p != [] && e.path == p ==> Stands(src, h + [e], p[..|p| - 1], good)
  {
    hide Trie.Where, Trie.WellNested, Trie.Inside, Events;
    EventsNext(src, h, e);
    Trie.WhereNext(Events(src, h), ToEvent(src, e));
    if e.Begun? && e.path != [] && e.path[..|e.path| - 1] == p {
      assert Lines(src, e.path) == Lines(src, p) + [src.line(e.path[|e.path| - 1])];
    }
    if p != [] {
      assert Lines(src, p)[..|p| - 1] == Lines(src, p[..|p| - 1]);
    }
  }

  lemma EndStands(src: Source, c: Context, u: Unfinished, config: Config, good: bool)
    requires Stands(src, c.history, u.path, good) && u.path == c.tracker.current != [] && u.prev.AtMost(c.counts)
    ensures var d := EndSection(c, u, config); Stands(src, d.history, d.tracker.current, good)
  {
    hide Stands, HasChildren, Misses, LeftState;
    var d := EndSection(c, u, config);
    StandsAfter(src, c.history, u.path, good, d.history[|c.history|]);
  }

  /** Until the unfinished sections are ended, the calls are nested like the sections. */
  lemma {:induction false} ExecStands(src: Source, c: Context, s: Script, config: Config, good: bool)
    requires Stands(src, c.history, c.tracker.current, good)
    ensures var r := Exec(c, s, config).context; Stands(src, r.history, r.tracker.current, good)
    decreases s
  {
    hide Stands, Enters, EndSection, Invoke, Erase, Exec;
    ExecFirst(c, s, config);
    match s
    case Finish =>
    case Raise(_) =>
    case Check(result, rest) =>
      StandsAfter(src, c.history, c.tracker.current, good, Asserted(result));
      ExecStands(src, Assert(c, result), rest, config, good);
    case Nest(key, inner, rest) =>
      ExecNest(c, key, inner, rest, config);
      if Enters(c.tracker, key) {
        var path := c.tracker.current + [key];
        var begun := Begin(c.(tracker := Enter(c.tracker, key)), path);
        assert path[..|path| - 1] == c.tracker.current;
        StandsAfter(src, c.history, c.tracker.current, good, Begun(path));
        ExecStands(src, begun, inner, config, good);
        var r := Exec(begun, inner, config);
        if !r.threw {
          var u := Unfinished(path, c.counts, |c.history|);
          EndStands(src, r.context, u, config, good);
          ExecStands(src, EndSection(r.context, u, config), rest, config, good);
        }
      } else {
        ExecStands(src, c.(tracker := Acquire(c.tracker, key)), rest, config, good);
      }
  }

  // ---------- the replayed ends ----------

  ghost function ReplayStats(src: Source, c: Context, pending: seq<Unfinished>, n: nat, config: Config)
    : (stats: seq<Trie.SectionStats>)
    requires n <= |pending| && n <= |c.tracker.current| && AllBefore(pending, c.counts)
    ensures |stats| == n
    decreases n
  {
    if n == 0 then []
    else
      var d := EndSection(c, pending[n - 1], config);
      [ToEvent(src, d.history[|c.history|]).stats] + ReplayStats(src, d, pending, n - 1, config)
  }

  lemma {:induction false} ReplayEvents(src: Source, c: Context, pending: seq<Unfinished>, n: nat, config: Config)
    requires n <= |pending| && n <= |c.tracker.current| && AllBefore(pending, c.counts)
    ensures Events(src, ReplayEnds(c, pending, n, config).history)
            == Trie.EndAll(Events(src, c.history), ReplayStats(src, c, pending, n, config))
    decreases n
  {
    hide HasChildren, Misses, LeftState, Info, Events;
    if n > 0 {
      var d := EndSection(c, pending[n - 1], config);
      EventsNext(src, c.history, d.history[|c.history|]);
      ReplayEvents(src, d, pending, n - 1, config);
      assert ReplayStats(src, c, pending, n, config)[1..] == ReplayStats(src, d, pending, n - 1, config);
    }
  }

  lemma {:induction false} ReplayInfos(src: Source, c: Context, pending: seq<Unfinished>, n: nat, config: Config)
    requires n <= |pending| && n <= |c.tracker.current| && AllBefore(pending, c.counts)
    ensures forall i | 0 <= i < n ::
              ReplayStats(src, c, pending, n, config)[i].info == Info(src, pending[n - 1 - i].path)
    decreases n
  {
    hide HasChildren, Misses, LeftState, Info, Events;
    if n > 0 {
      var d := EndSection(c, pending[n - 1], config);
      ReplayInfos(src, d, pending, n - 1, config);
      var stats := ReplayStats(src, c, pending, n, config);
      forall i | 0 <= i < n ensures stats[i].info == Info(src, pending[n - 1 - i].path) {
        if i > 0 {
          assert stats[i] == ReplayStats(src, d, pending, n - 1, config)[i - 1];
        }
      }
    }
  }

  /** The sections still open are all unfinished, innermost recorded first. */
  ghost predicate AllOpen(pending: seq<Unfinished>, current: Path) {
    && |pending| == |current|
    && forall j | 0 <= j < |pending| :: pending[j].path == current[..|current| - j]
  }

  lemma ReplayStands(src: Source, c: Context, pending: seq<Unfinished>, good: bool, config: Config)
    requires Stands(src, c.history, c.tracker.current, good)
    requires AllOpen(pending, c.tracker.current) && AllBefore(pending, c.counts)
    ensures Stands(src, ReplayEnds(c, pending, |pending|, config).history, [],
                   good && Trie.Palindrome(Lines(src, c.tracker.current)))
  {
    hide Events, Trie.Where, Trie.WellNested, Trie.Inside, Trie.Palindrome, ReplayEnds;
    var n, p := |pending|, c.tracker.current;
    var log, stats := Events(src, c.history), ReplayStats(src, c, pending, n, config);
    ReplayEvents(src, c, pending, n, config);
    ReplayInfos(src, c, pending, n, config);
    var lines := Lines(src, p);
    forall j | 0 <= j < n ensures stats[j].info.lineInfo == lines[|lines| - n + j] {
      var path := pending[n - 1 - j].path;
      assert path == p[..j + 1] && path[|path| - 1] == p[j];
    }
    Trie.EndsOutermostFirst(log, stats);
    assert lines[|lines| - n..] == lines && lines[..|lines| - n] == [] == Lines(src, []);
  }

  // ---------- a whole pass ----------

  ghost predicate Closed(src: Source, h: seq<Entry>, good: bool) {
    && Trie.Where(Events(src, h)) == Trie.Closed
    && Trie.Inside(Events(src, h)) && Trie.WellNested(Events(src, h)) == good
  }

  lemma TestBegins(src: Source, h: seq<Entry>, good: bool)
    requires Closed(src, h, good)
    ensures Stands(src, h + [Begun([])], [], good)
  {
    hide Events, Trie.Where, Trie.WellNested, Trie.Inside;
    EventsNext(src, h, Begun([]));
    Trie.WhereNext(Events(src, h), ToEvent(src, Begun([])));
    assert Lines(src, []) == [];
  }

  lemma TestEnds(src: Source, h: seq<Entry>, good: bool, e: Entry)
    requires Stands(src, h, [], good) && e.Ended? && e.path == []
    ensures Closed(src, h + [e], good)
  {
    hide Events, Trie.Where, Trie.WellNested, Trie.Inside;
    EventsNext(src, h, e);
    Trie.WhereNext(Events(src, h), ToEvent(src, e));
    assert Lines(src, []) == [];
  }

  lemma UnwindingStands(src: Source, c: Context, s: Script, config: Config, good: bool)
    requires [] in c.tracker.states && Closed(src, c.history, good)
    ensures var r := Unwinding(c, s, config).context; Stands(src, r.history, r.tracker.current, good)
  {
    hide Stands, Closed, Exec;
    var begun := Begin(c.(tracker := EnterTestCase(c.tracker)), []);
    TestBegins(src, c.history, good);
    ExecStands(src, begun, s, config, good);
    var x := Exec(begun, s, config);
    if x.report.Some? {
      StandsAfter(src, x.context.history, x.context.tracker.current, good, Asserted(x.report.value));
    }
  }

  /** The sections that the exception of a pass leaves, outermost first. */
  ghost function LeftIn(c: Context, s: Script, config: Config): Path
    requires [] in c.tracker.states
  {
    Unwinding(c, s, config).context.tracker.current
  }

  /** Every pass ends outside all sections, also if the run aborts in it; its calls keep the log well nested if
      and only if the lines of the sections that its exception leaves read the same both ways. */
  lemma PassNestedIff(src: Source, c: Context, s: Script, okToFail: bool, config: Config, good: bool)
    requires [] in c.tracker.states && Closed(src, c.history, good)
    ensures Closed(src, Pass(c, s, okToFail, config).history,
                   good && Trie.Palindrome(Lines(src, LeftIn(c, s, config))))
  {
    hide Stands, Closed, Unwinding, Invoke, ReplayEnds, Lines, Trie.Palindrome, LeaveTestCase;
    var r := Unwinding(c, s, config);
    UnwindingStands(src, c, s, config, good);
    UnwoundAreOpen(c, s, config);
    ReplayStands(src, r.context, r.pending, good, config);
    var e := ReplayEnds(r.context, r.pending, |r.pending|, config);
    var d := Pass(c, s, okToFail, config);
    TestEnds(src, e.history, good && Trie.Palindrome(Lines(src, LeftIn(c, s, config))), d.history[|e.history|]);
  }

  lemma UnwoundAreOpen(c: Context, s: Script, config: Config)
    requires [] in c.tracker.states
    ensures var r := Unwinding(c, s, config); AllOpen(r.pending, r.context.tracker.current)
  {
    hide Invoke, Exec;
  }

  /** In a pass in which the run does not abort the sections left are those the body leaves. */
  lemma LeftInBody(c: Context, s: Script, i: nat, config: Config)
    requires Distinct(Erase(s)) && i < TotalRuns(Erase(s)) && c.tracker == After(Erase(s), i)
    requires !Unwinding(c, s, config).aborted
    ensures LeftIn(c, s, config) == LeftPath(Erase(s), i)
  {
    hide Exec, Invoke, After, TotalRuns, LeftPath, Distinct;
    PassLeaves(Erase(s), i);
  }

  /** As above for pass `i` of a test case. */
  ghost function LeftBy(c: Context, s: Script, okToFail: bool, config: Config, i: nat): Path
    requires [] in c.tracker.states
  {
    LeftIn(RunPasses(c, s, okToFail, config, i), s, config)
  }

  /** In each of the first `n` passes the lines of the sections left are their own reverse. */
  ghost predicate AllReadBack(src: Source, c: Context, s: Script, okToFail: bool, config: Config, n: nat)
    requires [] in c.tracker.states
  {
    forall i | 0 <= i < n :: Trie.Palindrome(Lines(src, LeftBy(c, s, okToFail, config, i)))
  }

  lemma ReadBackNext(src: Source, c: Context, s: Script, okToFail: bool, config: Config, n: nat)
    requires [] in c.tracker.states
    ensures AllReadBack(src, c, s, okToFail, config, 0)
    ensures AllReadBack(src, c, s, okToFail, config, n + 1)
            <==> && AllReadBack(src, c, s, okToFail, config, n)
                 && Trie.Palindrome(Lines(src, LeftBy(c, s, okToFail, config, n)))
  {
    hide LeftBy, Lines, Trie.Palindrome;
  }

  /** The log of all passes is well nested if and only if that is so. */
  lemma {:induction false} LogNestedIff(src: Source, c: Context, s: Script, okToFail: bool, config: Config, n: nat)
    requires c.tracker == FRESH && c.history == []
    ensures Closed(src, RunPasses(c, s, okToFail, config, n).history, AllReadBack(src, c, s, okToFail, config, n))
    decreases n
  {
    hide Closed, Pass, RunPasses, LeftIn, Lines, AllReadBack, Trie.Palindrome;
    RunPassesNext(c, s, okToFail, config, n);
    if n == 0 {
      NothingReported(src);
      ReadBackNext(src, c, s, okToFail, config, 0);
    } else {
      LogNestedIff(src, c, s, okToFail, config, n - 1);
      ReadBackNext(src, c, s, okToFail, config, n - 1);
      PassNestedIff(src, RunPasses(c, s, okToFail, config, n - 1), s, okToFail, config,
                    AllReadBack(src, c, s, okToFail, config, n - 1));
    }
  }

  lemma NothingReported(src: Source)
    ensures Closed(src, [], true)
  {
  }

  /** In particular a pass that leaves at most one section is reported well nested. */
  lemma OneLeftIsNested(src: Source, path: Path)
    requires |path| <= 1
    ensures Trie.Palindrome(Lines(src, path))
  {
  }

  /** A script whose exception leaves two sections under different lines: its log is not well nested. */
  lemma CrossedEnds(src: Source, c: Context, s: Script, okToFail: bool, config: Config)
    requires s == TWO_LEFT && c.tracker == FRESH && c.history == [] && src.line("a") != src.line("b")
    ensures Closed(src, Pass(c, s, okToFail, config).history, false)
  {
    assert After(Erase(s), 0) == FRESH;
    hide Closed, Pass, Lines, Unwinding, LeftPath, LeftCount, TotalRuns, ForestCount, Distinct, LeftIn, Invoke, After;
    NothingReported(src);
    assert Closed(src, c.history, true);
    PassNestedIff(src, c, s, okToFail, config, true);
    TwoLeft();
    TwoLeftUnaborted(c, config);
    LeftInBody(c, s, 0, config);
    var lines := Lines(src, ["a", "b"]);
    assert lines[0] == src.line("a") && lines[1] == src.line("b");
    assert !Trie.Palindrome(lines);
  }
}
