/** The tree of sections that a log of reporter events describes: one node per distinct path
    of source lines, whatever the number of passes that went through it. */
module SectionTrie {
  import opened Basics
  import Keeping = TotalsKeeping

  datatype LineInfo = LineInfo(file: string, line: nat)

  /** Where a section is, as the source lines of the sections around it below the test case. */
  type Path = seq<LineInfo>

  datatype SectionInfo = SectionInfo(lineInfo: LineInfo, name: string)

  datatype SectionStats = SectionStats(info: SectionInfo, assertions: Keeping.Counts, missingAssertions: bool)

  datatype Event =
    | Starting(info: SectionInfo)
    | Assertion(id: int)
    | Ended(stats: SectionStats)

  /** Between test cases, or inside the section at `path`. */
  datatype Position = Closed | At(path: Path)

  function Incomplete(info: SectionInfo): SectionStats {
    SectionStats(info, Keeping.ZERO, false)
  }

  function Moved(w: Position, e: Event): Position {
    match e
    case Starting(info) => if w.Closed? then At([]) else At(w.path + [info.lineInfo])
    case Assertion(_) => w
    case Ended(_) => if w.Closed? || w.path == [] then Closed else At(w.path[..|w.path| - 1])
  }

  function Where(log: seq<Event>): Position {
    if log == [] then Closed else Moved(Where(log[..|log| - 1]), log[|log| - 1])
  }

  /** Events come inside a section, and the end of a section carries the line it began with. */
  predicate Fits(w: Position, e: Event) {
    match e
    case Starting(_) => true
    case Assertion(_) => w.At?
    case Ended(stats) => w.At? && (w.path != [] ==> stats.info.lineInfo == w.path[|w.path| - 1])
  }

  predicate WellNested(log: seq<Event>) {
    log == [] || (WellNested(log[..|log| - 1]) && Fits(Where(log[..|log| - 1]), log[|log| - 1]))
  }

  /** Assertions and ends come inside a section. */
  predicate Inside(log: seq<Event>) {
    log == [] || (Inside(log[..|log| - 1]) && (log[|log| - 1].Starting? || Where(log[..|log| - 1]).At?))
  }

  /** The sections begun so far. */
  function Known(log: seq<Event>): set<Path> {
    if log == [] then {}
    else
      var before := log[..|log| - 1];
      if log[|log| - 1].Starting? then Known(before) + {Moved(Where(before), log[|log| - 1]).path}
      else Known(before)
  }

  /** The assertions made with the section at `p` innermost, in order. */
  function AssertionsAt(log: seq<Event>, p: Path): seq<int> {
    if log == [] then []
    else
      var before, e := log[..|log| - 1], log[|log| - 1];
      AssertionsAt(before, p) + if e.Assertion? && Where(before) == At(p) then [e.id] else []
  }

  /** The lines of the sections begun directly in the section at `p`, each once, by first begin. */
  function ChildLines(log: seq<Event>, p: Path): seq<LineInfo> {
    if log == [] then []
    else
      var before, e := log[..|log| - 1], log[|log| - 1];
      var lines := ChildLines(before, p);
      if e.Starting? && Where(before) == At(p) && e.info.lineInfo !in lines then lines + [e.info.lineInfo]
      else lines
  }

  /** The statistics of the section at `p`: those of its last end, or empty ones from its first begin. */
  function StatsAt(log: seq<Event>, p: Path): SectionStats
    requires p in Known(log)
  {
    var before, e := log[..|log| - 1], log[|log| - 1];
    if e.Ended? && Where(before) == At(p) then e.stats
    else if p in Known(before) then StatsAt(before, p)
    else Incomplete(e.info)
  }

  // ---------- one event more ----------

  lemma Snoc(log: seq<Event>, e: Event)
    ensures (log + [e])[..|log + [e]| - 1] == log && (log + [e])[|log + [e]| - 1] == e
  {
  }

  lemma WhereNext(log: seq<Event>, e: Event)
    ensures Where(log + [e]) == Moved(Where(log), e)
    ensures WellNested(log + [e]) <==> WellNested(log) && Fits(Where(log), e)
    ensures Inside(log + [e]) <==> Inside(log) && (e.Starting? || Where(log).At?)
    ensures Known(log + [e]) == if e.Starting? then Known(log) + {Moved(Where(log), e).path} else Known(log)
  {
    Snoc(log, e);
  }

  lemma AtNext(log: seq<Event>, e: Event, p: Path)
    ensures AssertionsAt(log + [e], p)
            == AssertionsAt(log, p) + if e.Assertion? && Where(log) == At(p) then [e.id] else []
    ensures ChildLines(log + [e], p)
            == if e.Starting? && Where(log) == At(p) && e.info.lineInfo !in ChildLines(log, p)
               then ChildLines(log, p) + [e.info.lineInfo] else ChildLines(log, p)
  {
    Snoc(log, e);
  }

  lemma StatsNext(log: seq<Event>, e: Event, p: Path)
    requires p in Known(log + [e])
    ensures StatsAt(log + [e], p)
            == if e.Ended? && Where(log) == At(p) then e.stats
               else if p in Known(log) then StatsAt(log, p)
               else if e.Starting? then Incomplete(e.info) else StatsAt(log + [e], p)
  {
    Snoc(log, e);
    WhereNext(log, e);
  }

  // ---------- the trie ----------

  /** Inside a section it and every section around it are known. */
  lemma {:induction false} InsideIsKnown(log: seq<Event>)
    ensures Where(log).At? ==> forall i | 0 <= i <= |Where(log).path| :: Where(log).path[..i] in Known(log)
    decreases |log|
  {
    if log != [] {
      var before, e := log[..|log| - 1], log[|log| - 1];
      InsideIsKnown(before);
      var w, v := Where(before), Where(log);
      if v.At? {
        forall i | 0 <= i <= |v.path| ensures v.path[..i] in Known(log) {
          if e.Starting? && i == |v.path| {
            assert v.path[..i] == v.path;
          } else if w.At? {
            assert v.path[..i] == w.path[..i];
          }
        }
      }
    }
  }

  /** The children of a node are the known paths one line longer, in order of first begin and
      without repetition. */
  lemma {:induction false} ChildrenAreKnown(log: seq<Event>, p: Path, l: LineInfo)
    ensures l in ChildLines(log, p) <==> p + [l] in Known(log)
    decreases |log|
  {
    if log != [] {
      var before, e := log[..|log| - 1], log[|log| - 1];
      ChildrenAreKnown(before, p, l);
      if e.Starting? {
        var q := Moved(Where(before), e).path;
        if Where(before) == At(p) {
          assert q == p + [l] <==> e.info.lineInfo == l by {
            assert (p + [l])[|p|] == l && (p + [e.info.lineInfo])[|p|] == e.info.lineInfo;
          }
        } else if Where(before).At? {
          assert q != p + [l] by {
            assert q[..|q| - 1] == Where(before).path && (p + [l])[..|p|] == p;
          }
        }
      }
    }
  }

  lemma {:induction false} ChildrenDiffer(log: seq<Event>, p: Path)
    ensures NoRepeats(ChildLines(log, p))
    decreases |log|
  {
    if log != [] {
      var before, e := log[..|log| - 1], log[|log| - 1];
      ChildrenDiffer(before, p);
      AppendDiffers(ChildLines(before, p), if e.Starting? then e.info.lineInfo else LineInfo("", 0));
    }
  }

  lemma AppendDiffers<T>(s: seq<T>, x: T)
    requires NoRepeats(s)
    ensures x !in s ==> NoRepeats(s + [x])
  {
  }

  /** How many assertions are stored in the nodes of `paths`. */
  ghost function Stored(log: seq<Event>, paths: set<Path>): nat {
    if paths == {} then 0
    else var p :| p in paths; |AssertionsAt(log, p)| + Stored(log, paths - {p})
  }

  function AssertionCount(log: seq<Event>): nat {
    if log == [] then 0
    else AssertionCount(log[..|log| - 1]) + if log[|log| - 1].Assertion? then 1 else 0
  }

  lemma {:induction false} StoredNext(log: seq<Event>, e: Event, paths: set<Path>)
    ensures Stored(log + [e], paths)
            == Stored(log, paths) + if e.Assertion? && Where(log).At? && Where(log).path in paths then 1 else 0
    decreases paths
  {
    if paths != {} {
      var p :| p in paths && Stored(log + [e], paths)
                             == |AssertionsAt(log + [e], p)| + Stored(log + [e], paths - {p});
      AtNext(log, e, p);
      StoredNext(log, e, paths - {p});
      StoredSplit(log, paths, p);
    }
  }

  lemma {:induction false} StoredSplit(log: seq<Event>, paths: set<Path>, p: Path)
    requires p in paths
    ensures Stored(log, paths) == |AssertionsAt(log, p)| + Stored(log, paths - {p})
    decreases paths
  {
    var q :| q in paths && Stored(log, paths) == |AssertionsAt(log, q)| + Stored(log, paths - {q});
    if q != p {
      StoredSplit(log, paths - {q}, p);
      StoredSplit(log, paths - {p}, q);
      assert paths - {q} - {p} == paths - {p} - {q};
    }
  }

  lemma {:induction false} FreshPathIsEmpty(log: seq<Event>, p: Path)
    requires p !in Known(log)
    ensures AssertionsAt(log, p) == [] && ChildLines(log, p) == []
    decreases |log|
  {
    if log != [] {
      var before := log[..|log| - 1];
      FreshPathIsEmpty(before, p);
      InsideIsKnown(before);
      assert p[..|p|] == p;
    }
  }

  /** Every assertion of a well-nested log is stored in exactly one node. */
  lemma {:induction false} AssertionsConserved(log: seq<Event>)
    requires WellNested(log)
    ensures Stored(log, Known(log)) == AssertionCount(log)
    decreases |log|
  {
    if log != [] {
      var before, e := log[..|log| - 1], log[|log| - 1];
      assert log == before + [e];
      AssertionsConserved(before);
      InsideIsKnown(before);
      StoredNext(before, e, Known(before));
      if e.Assertion? {
        var p := Where(before).path;
        assert p[..|p|] == p;
      } else if e.Starting? {
        var q := Moved(Where(before), e).path;
        if q !in Known(before) {
          StoredSplit(log, Known(log), q);
          assert Known(log) - {q} == Known(before);
          FreshPathIsEmpty(before, q);
          AtNext(before, e, q);
        } else {
          assert Known(log) == Known(before);
        }
      }
    }
  }

  // ---------- ends in the wrong order ----------

  /** The log after the ends of sections with the given statistics. */
  function EndAll(log: seq<Event>, stats: seq<SectionStats>): seq<Event>
    decreases |stats|
  {
    if stats == [] then log else EndAll(log + [Ended(stats[0])], stats[1..])
  }

  /** Each end carries the line of the section that is innermost when it comes. */
  predicate InnermostFirst(p: Path, stats: seq<SectionStats>)
    requires |stats| <= |p|
  {
    forall j | 0 <= j < |stats| :: stats[j].info.lineInfo == p[|p| - 1 - j]
  }

  lemma InnermostNext(p: Path, stats: seq<SectionStats>)
    requires 0 < |stats| <= |p|
    ensures InnermostFirst(p, stats)
            <==> stats[0].info.lineInfo == p[|p| - 1] && InnermostFirst(p[..|p| - 1], stats[1..])
  {
    var q, rest := p[..|p| - 1], stats[1..];
    if InnermostFirst(q, rest) && stats[0].info.lineInfo == p[|p| - 1] {
      forall j | 0 <= j < |stats| ensures stats[j].info.lineInfo == p[|p| - 1 - j] {
        if j > 0 {
          assert rest[j - 1].info.lineInfo == q[|q| - 1 - (j - 1)];
        }
      }
    }
  }

  lemma {:induction false} EndAllNested(log: seq<Event>, stats: seq<SectionStats>)
    requires Where(log).At? && |stats| <= |Where(log).path|
    ensures var p := Where(log).path;
            && Where(EndAll(log, stats)) == At(p[..|p| - |stats|])
            && (Inside(EndAll(log, stats)) <==> Inside(log))
            && (WellNested(EndAll(log, stats)) <==> WellNested(log) && InnermostFirst(p, stats))
    decreases |stats|
  {
    hide InnermostFirst, Where, WellNested, Inside;
    var p := Where(log).path;
    if stats == [] {
      assert p[..|p|] == p;
      NoneToEnd(p);
    } else {
      var q := p[..|p| - 1];
      WhereNext(log, Ended(stats[0]));
      EndAllNested(log + [Ended(stats[0])], stats[1..]);
      assert q[..|q| - |stats[1..]|] == p[..|p| - |stats|];
      InnermostNext(p, stats);
    }
  }

  lemma NoneToEnd(p: Path)
    ensures InnermostFirst(p, [])
  {
  }

  predicate Palindrome<T(==)>(s: seq<T>) {
    forall i | 0 <= i < |s| :: s[i] == s[|s| - 1 - i]
  }

  /** The statistics are those of the innermost open sections, outermost first. */
  predicate OutermostFirst(p: Path, stats: seq<SectionStats>) {
    && |stats| <= |p|
    && forall j | 0 <= j < |stats| :: stats[j].info.lineInfo == p[|p| - |stats| + j]
  }

  lemma BothWays(p: Path, stats: seq<SectionStats>)
    requires OutermostFirst(p, stats)
    ensures InnermostFirst(p, stats) <==> Palindrome(p[|p| - |stats|..])
  {
    var n := |stats|;
    var open := p[|p| - n..];
    assert forall j | 0 <= j < n :: open[j] == stats[j].info.lineInfo;
    assert forall j | 0 <= j < n :: stats[j].info.lineInfo == p[|p| - 1 - j] <==> open[j] == open[n - 1 - j];
  }

  /** Ends reported outermost first, as the runner does for sections left by an exception, keep the log well
      nested if and only if the lines of those sections read the same both ways. */
  lemma EndsOutermostFirst(log: seq<Event>, stats: seq<SectionStats>)
    requires Where(log).At? && OutermostFirst(Where(log).path, stats)
    ensures var p := Where(log).path;
            && Where(EndAll(log, stats)) == At(p[..|p| - |stats|])
            && (Inside(EndAll(log, stats)) <==> Inside(log))
            && (WellNested(EndAll(log, stats)) <==> WellNested(log) && Palindrome(p[|p| - |stats|..]))
  {
    hide Where, WellNested, Inside, InnermostFirst, Palindrome;
    EndAllNested(log, stats);
    BothWays(Where(log).path, stats);
  }
}
