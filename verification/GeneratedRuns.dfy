/** Generators in a test case with sections: which combinations of their values a pass gets to see. */
module GeneratedRuns {
  import opened TestBodies
  import opened TrackerModel
  import opened TrackerTheorems
  import opened Generators

  /** A test body that reads generators between its sections. */
  datatype Program =
    | End
    | Raise
    | Use(source: Source, rest: Program)
    | Nest(key: Key, inner: Program, rest: Program)

  function Sections(p: Program): Body {
    match p
    case End => Done
    case Raise => Throw
    case Use(_, rest) => Sections(rest)
    case Nest(key, inner, rest) => Section(key, Sections(inner), Sections(rest))
  }

  /** The generators a body reads outside all its sections. */
  function Outside(p: Program): seq<Source> {
    match p
    case End => []
    case Raise => []
    case Use(u, rest) => [u] + Outside(rest)
    case Nest(_, _, rest) => Outside(rest)
  }

  // ---------- one pass ----------

  /** The generators registered so far and their indices. */
  datatype Counters = Counters(known: seq<Source>, index: seq<nat>)

  /** In which section which generator was read, and the index it had. */
  datatype Reading = Reading(place: Path, name: string, index: nat)

  datatype Gone = Gone(unwound: Unwound, counters: Counters, readings: seq<Reading>)

  ghost predicate Paired(g: Counters) {
    |g.known| == |g.index| && Unique(g.known)
  }

  ghost function Mention(g: Counters, u: Source): (r: Counters)
    requires Paired(g)
    ensures Paired(r) && IsKnown(r.known, u.fileInfo)
  {
    if IsKnown(g.known, u.fileInfo) then g
    else
      KnownNext(g.known, u, u.fileInfo);
      Counters(g.known + [u], g.index + [0])
  }

  ghost function IndexOf(g: Counters, name: string): nat
    requires Paired(g) && IsKnown(g.known, name)
  {
    g.index[Position(g.known, name)]
  }

  /** One pass below the current section: the sections are those of the tracker, and a generator is read
      when the body comes to it. */
  ghost function Go(t: Tracker, g: Counters, p: Program): (r: Gone)
    requires Paired(g)
    ensures r.unwound == Invoke(t, Sections(p)) && Paired(r.counters)
    decreases p
  {
    match p
    case End => Gone(Unwound(t, [], false), g, [])
    case Raise => Gone(Unwound(t, [], true), g, [])
    case Use(u, rest) =>
      var m := Mention(g, u);
      var r := Go(t, m, rest);
      r.(readings := [Reading(t.current, u.fileInfo, IndexOf(m, u.fileInfo))] + r.readings)
    case Nest(key, inner, rest) =>
      if Enters(t, key) then
        var r := Go(Enter(t, key), g, inner);
        var u := r.unwound;
        if u.threw then r.(unwound := Unwound(u.tracker, u.pending + [t.current + [key]], true))
        else
          var next := Go(Leave(u.tracker), r.counters, rest);
          next.(readings := r.readings + next.readings)
      else Go(Acquire(t, key), g, rest)
  }

  /** `h` knows what `g` does, at the same indices, and what is new is at zero. */
  ghost predicate Extends(g: Counters, h: Counters) {
    && g.known <= h.known && g.index <= h.index
    && forall j | |g.index| <= j < |h.index| :: h.index[j] == 0
  }

  lemma MentionExtends(g: Counters, u: Source)
    requires Paired(g)
    ensures Extends(g, Mention(g, u))
  {
  }

  lemma ExtendsOn(g: Counters, h: Counters, k: Counters)
    requires Extends(g, h) && Extends(h, k)
    ensures Extends(g, k)
  {
    forall j | |g.index| <= j < |k.index| ensures k.index[j] == 0 {
      if j < |h.index| {
        assert k.index[j] == h.index[j];
      }
    }
  }

  lemma {:induction false} GoExtends(t: Tracker, g: Counters, p: Program)
    requires Paired(g)
    ensures Extends(g, Go(t, g, p).counters)
    decreases p
  {
    hide Extends, Mention, Invoke;
    match p
    case End => assert Extends(g, g) by { ExtendsItself(g); }
    case Raise => assert Extends(g, g) by { ExtendsItself(g); }
    case Use(u, rest) =>
      MentionExtends(g, u);
      GoExtends(t, Mention(g, u), rest);
      ExtendsOn(g, Mention(g, u), Go(t, g, p).counters);
    case Nest(key, inner, rest) =>
      if Enters(t, key) {
        var r := Go(Enter(t, key), g, inner);
        GoExtends(Enter(t, key), g, inner);
        if !r.unwound.threw {
          GoExtends(Leave(r.unwound.tracker), r.counters, rest);
          ExtendsOn(g, r.counters, Go(t, g, p).counters);
        }
      } else {
        GoExtends(Acquire(t, key), g, rest);
      }
  }

  lemma ExtendsItself(g: Counters)
    ensures Extends(g, g)
  {
  }

  /** What was read is what the counters say. */
  ghost predicate ReadFrom(readings: seq<Reading>, g: Counters)
    requires Paired(g)
  {
    forall r | r in readings :: IsKnown(g.known, r.name) && r.index == IndexOf(g, r.name)
  }

  lemma SameIndex(g: Counters, h: Counters, name: string)
    requires Paired(g) && Paired(h) && Extends(g, h) && IsKnown(g.known, name)
    ensures IsKnown(h.known, name) && IndexOf(h, name) == IndexOf(g, name)
  {
    SamePosition(g.known, h.known, name);
  }

  lemma StillRead(readings: seq<Reading>, g: Counters, h: Counters)
    requires Paired(g) && Paired(h) && Extends(g, h) && ReadFrom(readings, g)
    ensures ReadFrom(readings, h)
  {
    hide Extends, IndexOf, IsKnown;
    forall r | r in readings ensures IsKnown(h.known, r.name) && r.index == IndexOf(h, r.name) {
      SameIndex(g, h, r.name);
    }
  }

  lemma {:induction false} GoReads(t: Tracker, g: Counters, p: Program)
    requires Paired(g)
    ensures ReadFrom(Go(t, g, p).readings, Go(t, g, p).counters)
    decreases p
  {
    hide Extends, Mention, IndexOf, IsKnown, Invoke;
    match p
    case End =>
    case Raise =>
    case Use(u, rest) =>
      var m, r := Mention(g, u), Go(t, Mention(g, u), rest);
      GoReads(t, m, rest);
      GoExtends(t, m, rest);
      SameIndex(m, r.counters, u.fileInfo);
    case Nest(key, inner, rest) =>
      if Enters(t, key) {
        var r := Go(Enter(t, key), g, inner);
        GoReads(Enter(t, key), g, inner);
        if !r.unwound.threw {
          GoReads(Leave(r.unwound.tracker), r.counters, rest);
          GoExtends(Leave(r.unwound.tracker), r.counters, rest);
          StillRead(r.readings, r.counters, Go(t, g, p).counters);
        }
      } else {
        GoReads(Acquire(t, key), g, rest);
      }
  }

  ghost predicate AllKnown(us: seq<Source>, g: Counters) {
    forall u | u in us :: IsKnown(g.known, u.fileInfo)
  }

  lemma KnownStays(us: seq<Source>, g: Counters, h: Counters)
    requires AllKnown(us, g) && Extends(g, h)
    ensures AllKnown(us, h)
  {
    forall u | u in us ensures IsKnown(h.known, u.fileInfo) {
      var j :| 0 <= j < |g.known| && g.known[j].fileInfo == u.fileInfo;
      assert h.known[j].fileInfo == u.fileInfo;
    }
  }

  /** A pass that leaves no section unfinished has come to every generator outside the sections. */
  lemma {:induction false} GoMentionsAll(t: Tracker, g: Counters, p: Program)
    requires Paired(g) && Invoke(t, Sections(p)).pending == []
    ensures AllKnown(Outside(p), Go(t, g, p).counters)
    decreases p
  {
    hide Extends, Mention, IsKnown, IndexOf;
    match p
    case End =>
    case Raise =>
    case Use(u, rest) =>
      GoMentionsAll(t, Mention(g, u), rest);
      GoExtends(t, Mention(g, u), rest);
      KnownStays([u], Mention(g, u), Go(t, g, p).counters);
    case Nest(key, inner, rest) =>
      if Enters(t, key) {
        var r := Go(Enter(t, key), g, inner);
        if !r.unwound.threw {
          GoMentionsAll(Leave(r.unwound.tracker), r.counters, rest);
        }
      } else {
        GoMentionsAll(Acquire(t, key), g, rest);
      }
  }

  // ---------- a pass that enters nothing ----------

  lemma {:induction false} LogGrows(t: Tracker, b: Body)
    ensures t.log <= Invoke(t, b).tracker.log
    decreases b
  {
    hide LeftState, Acquire;
    if b.Section? {
      if Enters(t, b.key) {
        LogGrows(Enter(t, b.key), b.inner);
        var u := Invoke(Enter(t, b.key), b.inner);
        SameLog(t, b.key);
        if !u.threw {
          LogGrows(Leave(u.tracker), b.next);
        }
      } else {
        LogGrows(Acquire(t, b.key), b.next);
        SameLog(t, b.key);
      }
    }
  }

  lemma SameLog(t: Tracker, key: Key)
    ensures Acquire(t, key).log == t.log && Acquire(t, key).current == t.current
    ensures t.log < Enter(t, key).log
  {
  }

  lemma EntersLog(t: Tracker, b: Body)
    requires b.Section? && Enters(t, b.key)
    ensures t.log < Invoke(t, b).tracker.log
  {
    hide LeftState, Acquire;
    SameLog(t, b.key);
    LogGrows(Enter(t, b.key), b.inner);
    var u := Invoke(Enter(t, b.key), b.inner);
    if !u.threw {
      LogGrows(Leave(u.tracker), b.next);
    }
  }

  /** The generators `us` read at `place`. */
  ghost function ReadAt(place: Path, g: Counters, us: seq<Source>): (readings: seq<Reading>)
    requires Paired(g) && AllKnown(us, g)
    ensures |readings| == |us|
    ensures forall j | 0 <= j < |us| :: readings[j] == Reading(place, us[j].fileInfo, IndexOf(g, us[j].fileInfo))
  {
    seq(|us|, j requires 0 <= j < |us| => Reading(place, us[j].fileInfo, IndexOf(g, us[j].fileInfo)))
  }

  /** A pass that enters no section reads exactly the generators outside the sections. */
  lemma {:induction false} QuietPass(t: Tracker, g: Counters, p: Program)
    requires Paired(g) && AllKnown(Outside(p), g) && Invoke(t, Sections(p)).tracker.log == t.log
    ensures Go(t, g, p).counters == g && Go(t, g, p).readings == ReadAt(t.current, g, Outside(p))
    decreases p
  {
    hide IsKnown, Enters, Acquire, IndexOf;
    match p
    case End =>
    case Raise =>
    case Use(u, rest) =>
      assert u in Outside(p);
      assert AllKnown(Outside(rest), g);
      QuietPass(t, g, rest);
      assert ReadAt(t.current, g, Outside(p))
          == [Reading(t.current, u.fileInfo, IndexOf(g, u.fileInfo))] + ReadAt(t.current, g, Outside(rest));
    case Nest(key, inner, rest) =>
      if Enters(t, key) {
        EntersLog(t, Sections(p));
        assert false;
      } else {
        SameLog(t, key);
        QuietPass(Acquire(t, key), g, rest);
      }
  }

  // ---------- the two loops of `runTest` ----------

  /** What a pass starts from, and whether both loops have ended. */
  datatype Loops = Loops(tracker: Tracker, counters: Counters, over: bool)

  /** A pass. If it completed the test case, the next combination is asked for. */
  ghost function AfterPass(s: Loops, p: Program): (r: Loops)
    requires [] in s.tracker.states && Paired(s.counters)
    ensures r.tracker == RunOnce(s.tracker, Sections(p)) && Paired(r.counters)
  {
    var r := Go(EnterTestCase(s.tracker), s.counters, p);
    var t := Replay(LeaveTestCase(r.unwound.tracker), |r.unwound.pending|);
    if t.states[[]] != Completed then Loops(t, r.counters, false)
    else
      var sizes := Radices(r.counters.known);
      var more := Next(sizes, r.counters.index).1;
      Loops(t, r.counters.(index := Step(sizes, r.counters.index)), !more)
  }

  /** After `n` passes. */
  ghost function At(p: Program, n: nat): (s: Loops)
    ensures s.tracker == After(Sections(p), n) && Paired(s.counters)
  {
    if n == 0 then Loops(FRESH, Counters([], []), false) else AfterPass(At(p, n - 1), p)
  }

  /** What pass `i` reads. */
  ghost function Readings(p: Program, i: nat): seq<Reading> {
    Go(EnterTestCase(At(p, i).tracker), At(p, i).counters, p).readings
  }

  /** The generators registered when the first combination has been run. */
  ghost function KnownIn(p: Program): (known: seq<Source>)
    ensures Unique(known)
  {
    At(p, TotalRuns(Sections(p))).counters.known
  }

  ghost function Combinations(p: Program): nat {
    Product(Radices(KnownIn(p)))
  }

  ghost predicate AllZero(g: Counters) {
    forall j | 0 <= j < |g.index| :: g.index[j] == 0
  }

  lemma ZeroExtends(g: Counters, h: Counters)
    requires AllZero(g) && Extends(g, h)
    ensures AllZero(h)
  {
    forall j | 0 <= j < |h.index| ensures h.index[j] == 0 {
      if j < |g.index| {
        assert h.index[j] == g.index[j];
      }
    }
  }

  /** The counters a pass leaves, before the next combination is asked for. */
  ghost function Left(p: Program, i: nat): (g: Counters)
    ensures Paired(g)
  {
    Go(EnterTestCase(At(p, i).tracker), At(p, i).counters, p).counters
  }

  lemma PassStep(p: Program, i: nat)
    ensures Left(p, i).known == At(p, i + 1).counters.known
    ensures After(Sections(p), i + 1).states[[]] != Completed ==>
              At(p, i + 1).counters == Left(p, i) && !At(p, i + 1).over
    ensures After(Sections(p), i + 1).states[[]] == Completed ==>
              var sizes, g := Radices(Left(p, i).known), Left(p, i);
              && At(p, i + 1).counters.index == Step(sizes, g.index)
              && (At(p, i + 1).over <==> !Next(sizes, g.index).1)
  {
    hide Go, Radices, Step, Next, RunOnce;
    assert At(p, i + 1) == AfterPass(At(p, i), p);
  }

  /** Until the first combination is done every index is zero. */
  lemma {:induction false} FirstCombination(p: Program, i: nat)
    requires Distinct(Sections(p)) && i < TotalRuns(Sections(p))
    ensures AllZero(At(p, i).counters) && !At(p, i).over && AllZero(Left(p, i))
    decreases i
  {
    hide *;
    if i == 0 {
      NothingYet(p);
    } else {
      FirstCombination(p, i - 1);
      RunsUntilCompleted(Sections(p));
      NotYet(p, i - 1);
    }
    LeftExtends(p, i);
    ZeroExtends(At(p, i).counters, Left(p, i));
  }

  lemma NotYet(p: Program, i: nat)
    requires After(Sections(p), i + 1).states[[]] != Completed && AllZero(Left(p, i))
    ensures AllZero(At(p, i + 1).counters) && !At(p, i + 1).over
  {
    hide Left, At, AllZero, After;
    PassStep(p, i);
  }

  lemma LeftExtends(p: Program, i: nat)
    ensures Extends(At(p, i).counters, Left(p, i))
  {
    hide At, Extends, Go;
    GoExtends(EnterTestCase(At(p, i).tracker), At(p, i).counters, p);
  }

  lemma NothingYet(p: Program)
    ensures AllZero(At(p, 0).counters) && !At(p, 0).over
  {
  }

  /** The pass that completes the test case leaves no section unfinished. */
  lemma CompletedLeavesNone(t: Tracker, b: Body)
    requires [] in t.states && RunOnce(t, b).states[[]] == Completed
    ensures Invoke(EnterTestCase(t), b).pending == []
  {
    hide Invoke, Eager, RunOnce, LeftState;
    PassIsEager(t, b);
  }

  lemma AllZeros(g: Counters)
    requires AllZero(g)
    ensures g.index == Zeros(|g.index|)
  {
  }

  /** Asking for the next combination counts. */
  lemma Counted(p: Program, i: nat, n: nat)
    requires After(Sections(p), i + 1).states[[]] == Completed
    requires Left(p, i).known == KnownIn(p) && n < Combinations(p)
    requires Left(p, i).index == Tuple(Radices(KnownIn(p)), n)
    ensures At(p, i + 1).counters.known == KnownIn(p)
    ensures At(p, i + 1).over <==> n + 1 >= Combinations(p)
    ensures n + 1 < Combinations(p) ==> At(p, i + 1).counters.index == Tuple(Radices(KnownIn(p)), n + 1)
  {
    hide Left, At, KnownIn, Radices, Tuple, Product, Next, After;
    PassStep(p, i);
    TupleSteps(Radices(KnownIn(p)), n);
  }

  lemma FirstDone(p: Program)
    requires Distinct(Sections(p))
    ensures var i := TotalRuns(Sections(p));
            && AllKnown(Outside(p), At(p, i).counters)
            && (At(p, i).over <==> Combinations(p) == 1)
            && (1 < Combinations(p) ==> At(p, i).counters.index == Tuple(Radices(KnownIn(p)), 1))
  {
    hide Left, At, Combinations, KnownIn, Radices, Tuple, TotalRuns, AllZero, AllKnown, Outside, After, Distinct;
    var b, i := Sections(p), TotalRuns(Sections(p)) - 1;
    FirstCombination(p, i);
    AllZeros(Left(p, i));
    RunsUntilCompleted(b);
    PassStep(p, i);
    FirstMentions(p, i);
    assert Left(p, i).known == KnownIn(p) by { KnownIs(p); }
    SomeCombination(p);
    Counted(p, i, 0);
  }

  lemma KnownIs(p: Program)
    ensures KnownIn(p) == At(p, TotalRuns(Sections(p))).counters.known
  {
  }

  lemma FirstMentions(p: Program, i: nat)
    requires After(Sections(p), i + 1).states[[]] == Completed
    ensures AllKnown(Outside(p), At(p, i + 1).counters)
  {
    hide Outside, Invoke, Next, Step, IsKnown;
    var s := At(p, i);
    assert After(Sections(p), i + 1) == RunOnce(s.tracker, Sections(p));
    CompletedLeavesNone(s.tracker, Sections(p));
    GoMentionsAll(EnterTestCase(s.tracker), s.counters, p);
    PassStep(p, i);
  }

  lemma SomeCombination(p: Program)
    ensures Combinations(p) > 0 && Tuple(Radices(KnownIn(p)), 0) == Zeros(|KnownIn(p)|)
  {
    hide KnownIn;
    ProductPositive(Radices(KnownIn(p)));
    TupleSteps(Radices(KnownIn(p)), 0);
  }

  /** In a pass of a later combination no section is entered, and all indices are those of the combination. */
  lemma LaterPass(p: Program, i: nat)
    requires Distinct(Sections(p)) && i >= TotalRuns(Sections(p))
    requires AllKnown(Outside(p), At(p, i).counters)
    ensures After(Sections(p), i + 1).states[[]] == Completed
    ensures Left(p, i) == At(p, i).counters
    ensures Readings(p, i) == ReadAt([], At(p, i).counters, Outside(p))
  {
    hide At, Outside, Invoke, TotalRuns, Distinct, IsKnown, Sections, Go, After;
    var t := At(p, i).tracker;
    LaterLog(Sections(p), i);
    QuietPass(EnterTestCase(t), At(p, i).counters, p);
  }

  lemma AfterNext(b: Body, i: nat)
    ensures After(b, i + 1) == RunOnce(After(b, i), b)
  {
    hide RunOnce;
  }

  lemma LaterLog(b: Body, i: nat)
    requires Distinct(b) && i >= TotalRuns(b)
    ensures After(b, i + 1).states[[]] == Completed
    ensures Invoke(EnterTestCase(After(b, i)), b).tracker.log == After(b, i).log
  {
    hide *;
    AfterNext(b, i);
    LaterPassesEnterNothing(b, i);
    LaterPassesEnterNothing(b, i + 1);
    LogOfPass(After(b, i), b);
  }

  lemma {:induction false} ReplayLog(t: Tracker, n: nat)
    requires n <= |t.current|
    ensures t.log <= Replay(t, n).log
    decreases n
  {
    hide LeftState;
    if n > 0 {
      ReplayLog(Leave(t), n - 1);
    }
  }

  lemma LogOfPass(t: Tracker, b: Body)
    requires [] in t.states && RunOnce(t, b).log == t.log
    ensures Invoke(EnterTestCase(t), b).tracker.log == t.log
  {
    hide Invoke, Replay, LeftState;
    var u := Invoke(EnterTestCase(t), b);
    LogGrows(EnterTestCase(t), b);
    ReplayLog(LeaveTestCase(u.tracker), |u.pending|);
  }

  /** After the passes of the first combination there is one pass for each further combination, and they
      come in counting order. */
  lemma {:induction false} LaterCombinations(p: Program, n: nat)
    requires Distinct(Sections(p)) && n < Combinations(p)
    ensures var i := TotalRuns(Sections(p)) + n;
            && AllKnown(Outside(p), At(p, i).counters)
            && At(p, i).counters.known == KnownIn(p)
            && (At(p, i).over <==> n + 1 == Combinations(p))
            && (n + 1 < Combinations(p) ==> At(p, i).counters.index == Tuple(Radices(KnownIn(p)), n + 1))
    decreases n
  {
    hide Left, At, Combinations, KnownIn, Radices, Tuple, TotalRuns, AllKnown, Outside, After, Distinct, Readings;
    var i := TotalRuns(Sections(p)) + n;
    if n == 0 {
      FirstDone(p);
      KnownIs(p);
    } else {
      LaterCombinations(p, n - 1);
      LaterPass(p, i - 1);
      Counted(p, i - 1, n);
      SameKnown(Outside(p), At(p, i - 1).counters, At(p, i).counters);
    }
  }

  lemma SameKnown(us: seq<Source>, g: Counters, h: Counters)
    requires AllKnown(us, g) && g.known == h.known
    ensures AllKnown(us, h)
  {
  }

  /** The generators a body reads anywhere. */
  function Mentioned(p: Program): set<Source> {
    match p
    case End => {}
    case Raise => {}
    case Use(u, rest) => {u} + Mentioned(rest)
    case Nest(_, inner, rest) => Mentioned(inner) + Mentioned(rest)
  }

  lemma {:induction false} GoKnows(t: Tracker, g: Counters, p: Program)
    requires Paired(g)
    ensures forall u | u in Go(t, g, p).counters.known :: u in g.known || u in Mentioned(p)
    decreases p
  {
    hide IndexOf, IsKnown, Invoke, Enters;
    match p
    case End =>
    case Raise =>
    case Use(u, rest) => GoKnows(t, Mention(g, u), rest);
    case Nest(key, inner, rest) =>
      if Enters(t, key) {
        var r := Go(Enter(t, key), g, inner);
        GoKnows(Enter(t, key), g, inner);
        if !r.unwound.threw {
          GoKnows(Leave(r.unwound.tracker), r.counters, rest);
        }
      } else {
        GoKnows(Acquire(t, key), g, rest);
      }
  }

  /** Every generator registered is one of the body, with the size it is read with. */
  lemma {:induction false} KnownAreMentioned(p: Program, n: nat)
    ensures forall u | u in At(p, n).counters.known :: u in Mentioned(p)
    decreases n
  {
    hide *;
    if n == 0 {
      NoneKnown(p);
    } else {
      KnownAreMentioned(p, n - 1);
      LeftKnows(p, n - 1);
      PassStep(p, n - 1);
    }
  }

  lemma LeftKnows(p: Program, i: nat)
    ensures forall u | u in Left(p, i).known :: u in At(p, i).counters.known || u in Mentioned(p)
  {
    hide At, Mentioned, Go;
    GoKnows(EnterTestCase(At(p, i).tracker), At(p, i).counters, p);
  }

  lemma NoneKnown(p: Program)
    ensures At(p, 0).counters.known == []
  {
  }

  // ---------- what a test case gets to see ----------

  ghost function TotalPasses(p: Program): nat {
    TotalRuns(Sections(p)) + Combinations(p) - 1
  }

  /** The loops end after exactly that many passes. */
  lemma LoopsEnd(p: Program, i: nat)
    requires Distinct(Sections(p)) && i <= TotalPasses(p)
    ensures At(p, i).over <==> i == TotalPasses(p)
  {
    hide At, Combinations, TotalRuns, KnownIn, Outside, Distinct;
    SomeCombination(p);
    if i < TotalRuns(Sections(p)) {
      FirstCombination(p, i);
    } else {
      LaterCombinations(p, i - TotalRuns(Sections(p)));
    }
  }

  /** The passes that run the sections read first values only. The pass of each later combination enters no
      section and reads that combination outside them. */
  lemma PassReads(p: Program, i: nat)
    requires Distinct(Sections(p)) && i < TotalPasses(p)
    ensures i < TotalRuns(Sections(p)) ==> forall r | r in Readings(p, i) :: r.index == 0
    ensures i >= TotalRuns(Sections(p)) ==>
              var n, g := i - TotalRuns(Sections(p)) + 1, At(p, i).counters;
              && g == Counters(KnownIn(p), Tuple(Radices(KnownIn(p)), n))
              && AllKnown(Outside(p), g)
              && Readings(p, i) == ReadAt([], g, Outside(p))
  {
    hide At, Combinations, TotalRuns, KnownIn, Outside, Distinct, Radices, Tuple, AllKnown, Sections, Readings, Left;
    var n := TotalRuns(Sections(p));
    if i < n {
      FirstCombination(p, i);
      LeftReads(p, i);
      ZeroRead(Readings(p, i), Left(p, i));
    } else {
      LaterCombinations(p, i - n);
      LaterPass(p, i);
    }
  }

  lemma LeftReads(p: Program, i: nat)
    ensures ReadFrom(Readings(p, i), Left(p, i))
  {
    hide At, Go, ReadFrom;
    GoReads(EnterTestCase(At(p, i).tracker), At(p, i).counters, p);
  }

  lemma ZeroRead(readings: seq<Reading>, g: Counters)
    requires Paired(g) && ReadFrom(readings, g) && AllZero(g)
    ensures forall r | r in readings :: r.index == 0
  {
  }

  /** A section never sees another value of a generator than its first. */
  lemma InsideIsFirst(p: Program, i: nat, r: Reading)
    requires Distinct(Sections(p)) && i < TotalPasses(p)
    requires r in Readings(p, i) && r.place != []
    ensures r.index == 0
  {
    hide At, TotalPasses, TotalRuns, KnownIn, Outside, Distinct, Radices, Tuple, AllKnown, Readings, IndexOf;
    PassReads(p, i);
  }

  /** Value `v` of the generator is read in pass `i`. */
  ghost predicate IsRead(p: Program, i: nat, name: string, v: nat) {
    exists r :: r in Readings(p, i) && r.name == name && r.index == v
  }

  predicate UsedOutside(p: Program, name: string) {
    exists u :: u in Outside(p) && u.fileInfo == name
  }

  /** A combination in which the digit at `j` is `v` and every other is zero. */
  function OneDigit(size: nat, j: nat, v: nat): (index: seq<nat>)
    requires j < size
    ensures |index| == size && forall k | 0 <= k < size :: index[k] == if k == j then v else 0
  {
    seq(size, k requires 0 <= k < size => if k == j then v else 0)
  }

  lemma {:induction false} DigitReached(sizes: seq<nat>, j: nat, v: nat) returns (n: nat)
    requires j < |sizes| && v < sizes[j] && forall k | 0 <= k < |sizes| :: sizes[k] > 0
    ensures n < Product(sizes) && Tuple(sizes, n)[j] == v
  {
    var index := OneDigit(|sizes|, j, v);
    n := Value(sizes, index);
    ValueBound(sizes, index);
    TupleOfValue(sizes, index);
  }

  /** A value after the first is read in some pass if and only if the generator has it and is used outside
      all sections. */
  lemma ValueReadIff(p: Program, name: string, v: nat)
    requires Distinct(Sections(p)) && IsKnown(KnownIn(p), name) && v > 0
    ensures (exists i: nat | i < TotalPasses(p) :: IsRead(p, i, name, v))
            <==> UsedOutside(p, name) && v < Radix(KnownIn(p)[Position(KnownIn(p), name)].size)
  {
    hide TotalRuns, KnownIn, Outside, Distinct, AllKnown, Radix, Tuple, Readings;
    if i: nat :| i < TotalPasses(p) && IsRead(p, i, name, v) {
      ReadIsOutside(p, i, name, v);
    }
    var j := Position(KnownIn(p), name);
    if UsedOutside(p, name) && v < Radix(KnownIn(p)[j].size) {
      var i := OutsideIsRead(p, name, v);
    }
  }

  lemma ReadIsOutside(p: Program, i: nat, name: string, v: nat)
    requires Distinct(Sections(p)) && IsKnown(KnownIn(p), name) && v > 0
    requires i < TotalPasses(p) && IsRead(p, i, name, v)
    ensures UsedOutside(p, name) && v < Radix(KnownIn(p)[Position(KnownIn(p), name)].size)
  {
    hide TotalRuns, KnownIn, Outside, Distinct, AllKnown, Radix, Tuple, Readings, At, IsKnown, Product;
    PassReads(p, i);
    var r :| r in Readings(p, i) && r.name == name && r.index == v;
    var n := i - TotalRuns(Sections(p)) + 1;
    TupleSteps(Radices(KnownIn(p)), n);
    var j :| 0 <= j < |Outside(p)| && Readings(p, i)[j] == r;
    assert Outside(p)[j] in Outside(p);
  }

  lemma OutsideIsRead(p: Program, name: string, v: nat) returns (i: nat)
    requires Distinct(Sections(p)) && IsKnown(KnownIn(p), name) && v > 0
    requires UsedOutside(p, name) && v < Radix(KnownIn(p)[Position(KnownIn(p), name)].size)
    ensures i < TotalPasses(p) && IsRead(p, i, name, v)
  {
    hide TotalRuns, KnownIn, Outside, Distinct, Radix, Readings, IsKnown, IsRead, UsedOutside;
    var n := DigitReached(Radices(KnownIn(p)), Position(KnownIn(p), name), v);
    SomeCombination(p);
    hide Tuple, Product;
    i := TotalRuns(Sections(p)) + n - 1;
    ReadInCombination(p, n, name);
  }

  /** The pass of a later combination reads it from every generator outside the sections. */
  lemma ReadInCombination(p: Program, n: nat, name: string)
    requires Distinct(Sections(p)) && 0 < n < Combinations(p) && UsedOutside(p, name)
    ensures IsKnown(KnownIn(p), name)
    ensures IsRead(p, TotalRuns(Sections(p)) + n - 1, name, Tuple(Radices(KnownIn(p)), n)[Position(KnownIn(p), name)])
  {
    hide TotalRuns, Combinations, KnownIn, Outside, Distinct, Radices, Tuple, Readings, At, IsKnown;
    var i := TotalRuns(Sections(p)) + n - 1;
    PassReads(p, i);
    var u :| u in Outside(p) && u.fileInfo == name;
    var j :| 0 <= j < |Outside(p)| && Outside(p)[j] == u;
    assert Readings(p, i)[j] in Readings(p, i);
  }

  // ---------- an example ----------

  const USED_INSIDE := Nest("a", Use(Source("numbers", 2), End), End)

  lemma OneRun(b: Body)
    requires b == Section("a", Done, Done)
    ensures TotalRuns(b) == 1 && Distinct(b)
  {
  }

  lemma UsedInA(t: Tracker, u: Source)
    requires Enters(t, "a")
    ensures Go(t, Counters([], []), Nest("a", Use(u, End), End)).counters.known == [u]
  {
    hide Leave, Enters, IndexOf;
    var e := Enter(t, "a");
    assert Mention(Counters([], []), u).known == [u];
    assert Go(e, Mention(Counters([], []), u), End).counters.known == [u];
    assert Go(e, Counters([], []), Use(u, End)).counters.known == [u];
  }

  lemma KnownInside(p: Program)
    requires p == USED_INSIDE
    ensures TotalRuns(Sections(p)) == 1 && Distinct(Sections(p)) && Outside(p) == []
    ensures KnownIn(p) == [Source("numbers", 2)]
  {
    OneRun(Sections(p));
    hide TotalRuns, Go, Next, Step;
    UsedInA(EnterTestCase(FRESH), Source("numbers", 2));
    assert Left(p, 0).known == [Source("numbers", 2)] by {
      assert At(p, 0).tracker == FRESH && At(p, 0).counters == Counters([], []);
    }
    PassStep(p, 0);
  }

  lemma TwoCombinations(known: seq<Source>, u: Source)
    requires known == [u] && u.size == 2
    ensures Product(Radices(known)) == 2
  {
    var sizes := Radices(known);
    assert sizes[0] == 2 && sizes[1..] == [];
  }

  /** The second value of the generator is never read, although it costs a pass. */
  lemma SecondNotRead(p: Program)
    requires p == USED_INSIDE
    ensures TotalPasses(p) == 2
    ensures forall i: nat | i < 2 :: !IsRead(p, i, "numbers", 1)
  {
    hide At, TotalRuns, KnownIn, Radices, Product, Sections, Distinct, Readings, Outside;
    KnownInside(p);
    TwoCombinations(KnownIn(p), Source("numbers", 2));
    assert KnownIn(p)[0].fileInfo == "numbers";
    forall i: nat | i < 2 ensures !IsRead(p, i, "numbers", 1) {
      if IsRead(p, i, "numbers", 1) {
        ReadIsOutside(p, i, "numbers", 1);
      }
    }
  }
}
