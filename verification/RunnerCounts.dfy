/** What the calls to the reporter say about the counts: every assertion is counted once, and every
    failure for a missing assertion is accounted for by the end of one section. */
module RunnerCounts {
  import opened TestBodies
  import opened TrackerModel
  import opened TotalsKeeping
  import opened RunnerModel

  /** How many assertions with the result `r` were reported. */
  function Results(h: seq<Entry>, r: Result): nat {
    if h == [] then 0
    else Results(h[..|h| - 1], r) + if h[|h| - 1] == Asserted(r) then 1 else 0
  }

  /** How many ends of sections were reported with an assertion missing. */
  function Missing(h: seq<Entry>): nat {
    if h == [] then 0
    else Missing(h[..|h| - 1]) + if h[|h| - 1].Ended? && h[|h| - 1].missing then 1 else 0
  }

  /** What the calls stand for in the counts. */
  function Weight(h: seq<Entry>): Counts {
    Counts(Results(h, Ok), Results(h, Failed) + Missing(h), 0)
  }

  lemma WeightNext(h: seq<Entry>, e: Entry)
    ensures Weight(h + [e]) == match e
                               case Begun(_) => Weight(h)
                               case Asserted(r) => Scored(Weight(h), r)
                               case Ended(_, _, _, _, missing) => WithFailure(Weight(h), missing)
    ensures Weight([]) == ZERO
  {
    assert (h + [e])[..|h|] == h;
  }

  lemma {:induction false} WeightConcat(a: seq<Entry>, b: seq<Entry>)
    ensures Weight(a + b) == Weight(a).Plus(Weight(b))
    decreases |b|
  {
    if b == [] {
      assert a + b == a;
    } else {
      var n := |b| - 1;
      WeightConcat(a, b[..n]);
      assert a + b == a + b[..n] + [b[n]] && b == b[..n] + [b[n]];
      WeightNext(a + b[..n], b[n]);
      WeightNext(b[..n], b[n]);
    }
  }

  // ---------- counts follow the calls ----------

  /** The counts have grown by what the calls in between stand for. */
  ghost predicate Grew(c: Context, d: Context) {
    c.history <= d.history && d.counts == c.counts.Plus(Weight(d.history[|c.history|..]))
  }

  lemma GrewAlong(c: Context, d: Context, e: Context)
    requires Grew(c, d) && Grew(d, e)
    ensures Grew(c, e)
  {
    hide Weight;
    var a, b := d.history[|c.history|..], e.history[|d.history|..];
    assert e.history[|c.history|..] == a + b;
    WeightConcat(a, b);
  }

  lemma GrewOne(c: Context, d: Context, e: Entry)
    requires d.history == c.history + [e]
    requires d.counts == match e
                         case Begun(_) => c.counts
                         case Asserted(r) => Scored(c.counts, r)
                         case Ended(_, _, _, _, missing) => WithFailure(c.counts, missing)
    ensures Grew(c, d)
  {
    assert d.history[|c.history|..] == [] + [e];
    WeightNext([], e);
  }

  lemma GrewNone(c: Context, d: Context)
    requires d.history == c.history && d.counts == c.counts
    ensures Grew(c, d)
  {
    assert d.history[|c.history|..] == [];
  }

  // ---------- every end is reported honestly ----------

  /** The counts and the call at the begin of the section are those the section remembers. */
  ghost predicate Remembers(c: Context, u: Unfinished) {
    && u.since < |c.history| && c.history[u.since] == Begun(u.path)
    && c.counts == u.prev.Plus(Weight(c.history[u.since..]))
  }

  lemma RemembersOn(c: Context, d: Context, u: Unfinished)
    requires Remembers(c, u) && Grew(c, d)
    ensures Remembers(d, u)
  {
    var a, b := c.history[u.since..], d.history[|c.history|..];
    assert d.history[u.since..] == a + b;
    WeightConcat(a, b);
  }

  /** If call number `j` ends a section, it reports the assertions made since the section began, and one of
      them is missing exactly if there are none, the option is set, and the tracker saw no children. */
  ghost predicate Honest(h: seq<Entry>, j: nat, config: Config)
    requires j < |h|
  {
    h[j].Ended? ==>
      var e := h[j];
      && e.since < j && h[e.since] == Begun(e.path)
      && var w := Weight(h[e.since..j]);
         && (e.missing <==> w.Total() == 0 && config.warn && !e.hasChildren)
         && e.assertions == WithFailure(w, e.missing)
  }

  ghost predicate AllHonest(h: seq<Entry>, from: nat, config: Config) {
    forall j | from <= j < |h| :: Honest(h, j, config)
  }

  lemma HonestOn(h: seq<Entry>, g: seq<Entry>, from: nat, config: Config)
    requires AllHonest(h, from, config) && h <= g && AllHonest(g, |h|, config)
    ensures AllHonest(g, from, config)
  {
    forall j | from <= j < |h| ensures Honest(g, j, config) {
      assert Honest(h, j, config);
      if h[j].Ended? {
        assert h[h[j].since..j] == g[h[j].since..j];
      }
    }
  }

  ghost predicate AllRemember(c: Context, pending: seq<Unfinished>) {
    forall u | u in pending :: Remembers(c, u)
  }

  lemma EndHonest(c: Context, u: Unfinished, config: Config)
    requires c.tracker.current != [] && u.prev.AtMost(c.counts) && Remembers(c, u)
    ensures var d := EndSection(c, u, config); Grew(c, d) && AllHonest(d.history, |c.history|, config)
  {
    hide HasChildren, Leave, Results, Missing;
    var d := EndSection(c, u, config);
    var e := d.history[|c.history|];
    GrewOne(c, d, e);
    assert d.history[u.since..|c.history|] == c.history[u.since..];
  }

  /** Over a pass below a section the counts follow the calls, every end is honest, and the unfinished
      sections remember their begin. */
  lemma {:induction false} ExecHonest(c: Context, s: Script, config: Config)
    ensures var r := Exec(c, s, config);
            && Grew(c, r.context) && AllHonest(r.context.history, |c.history|, config)
            && AllRemember(r.context, r.pending)
    decreases s
  {
    hide Grew, AllHonest, Remembers, Weight, Enters, EndSection, Invoke;
    match s
    case Finish => GrewNone(c, c); NothingNew(c.history, config);
    case Raise(_) => GrewNone(c, c); NothingNew(c.history, config);
    case Check(result, rest) =>
      var a := Assert(c, result);
      GrewOne(c, a, Asserted(result));
      NewIsHonest(c.history, Asserted(result), config);
      ExecHonest(a, rest, config);
      GrewAlong(c, a, Exec(a, rest, config).context);
      HonestOn(a.history, Exec(a, rest, config).context.history, |c.history|, config);
    case Nest(key, inner, rest) =>
      if Enters(c.tracker, key) {
        NestHonest(c, key, inner, rest, config);
      } else {
        ExecHonest(c.(tracker := Acquire(c.tracker, key)), rest, config);
        SameGrew(c, c.(tracker := Acquire(c.tracker, key)), Exec(c, s, config).context);
      }
  }

  lemma NothingNew(h: seq<Entry>, config: Config)
    ensures AllHonest(h, |h|, config)
  {
  }

  lemma NewIsHonest(h: seq<Entry>, e: Entry, config: Config)
    requires !e.Ended?
    ensures AllHonest(h + [e], |h|, config)
  {
  }

  lemma SameGrew(c: Context, d: Context, e: Context)
    requires c.counts == d.counts && c.history == d.history && Grew(d, e)
    ensures Grew(c, e)
  {
  }

  lemma {:induction false} NestHonest(c: Context, key: Key, inner: Script, rest: Script, config: Config)
    requires Enters(c.tracker, key)
    ensures var r := Exec(c, Nest(key, inner, rest), config);
            && Grew(c, r.context) && AllHonest(r.context.history, |c.history|, config)
            && AllRemember(r.context, r.pending)
    decreases Nest(key, inner, rest), 0
  {
    hide Grew, AllHonest, Remembers, Weight, Enters, EndSection, Invoke;
    var path := c.tracker.current + [key];
    var begun := Begin(c.(tracker := Enter(c.tracker, key)), path);
    var u := Unfinished(path, c.counts, |c.history|);
    var r := Exec(begun, inner, config);
    GrewOne(c, begun, Begun(path));
    NewIsHonest(c.history, Begun(path), config);
    JustBegun(c, begun, u);
    ExecHonest(begun, inner, config);
    GrewAlong(c, begun, r.context);
    HonestOn(begun.history, r.context.history, |c.history|, config);
    RemembersOn(begun, r.context, u);
    if !r.threw {
      var d := EndSection(r.context, u, config);
      EndHonest(r.context, u, config);
      GrewAlong(c, r.context, d);
      HonestOn(r.context.history, d.history, |c.history|, config);
      var f := Exec(d, rest, config);
      ExecHonest(d, rest, config);
      GrewAlong(c, d, f.context);
      HonestOn(d.history, f.context.history, |c.history|, config);
    }
  }

  lemma JustBegun(c: Context, begun: Context, u: Unfinished)
    requires begun.history == c.history + [Begun(u.path)] && begun.counts == c.counts
    requires u.prev == c.counts && u.since == |c.history|
    ensures Remembers(begun, u)
  {
    assert begun.history[u.since..] == [] + [Begun(u.path)];
    WeightNext([], Begun(u.path));
  }

  lemma {:induction false} ReplayHonest(c: Context, pending: seq<Unfinished>, n: nat, config: Config)
    requires n <= |pending| && n <= |c.tracker.current| && AllBefore(pending, c.counts) && AllRemember(c, pending)
    ensures var d := ReplayEnds(c, pending, n, config); Grew(c, d) && AllHonest(d.history, |c.history|, config)
    decreases n
  {
    hide Grew, AllHonest, Remembers, Weight, EndSection;
    if n == 0 {
      GrewNone(c, c);
      NothingNew(c.history, config);
    } else {
      var u := pending[n - 1];
      var d := EndSection(c, u, config);
      EndHonest(c, u, config);
      forall v | v in pending ensures Remembers(d, v) {
        RemembersOn(c, d, v);
      }
      ReplayHonest(d, pending, n - 1, config);
      var e := ReplayEnds(d, pending, n - 1, config);
      GrewAlong(c, d, e);
      HonestOn(d.history, e.history, |c.history|, config);
    }
  }

  // ---------- a whole pass ----------

  lemma UnwindingHonest(c: Context, s: Script, config: Config)
    requires [] in c.tracker.states
    ensures var r := Unwinding(c, s, config);
            && Grew(c, r.context) && AllHonest(r.context.history, |c.history|, config)
            && AllRemember(r.context, r.pending)
            && |c.history| < |r.context.history| && r.context.history[|c.history|] == Begun([])
  {
    hide Grew, AllHonest, Remembers, Weight, Invoke, Exec, AllRemember;
    var begun := Begin(c.(tracker := EnterTestCase(c.tracker)), []);
    var x := Exec(begun, s, config);
    GrewOne(c, begun, Begun([]));
    NewIsHonest(c.history, Begun([]), config);
    ExecHonest(begun, s, config);
    GrewAlong(c, begun, x.context);
    HonestOn(begun.history, x.context.history, |c.history|, config);
    var r := Unwinding(c, s, config);
    if x.report.Some? {
      var e := Asserted(x.report.value);
      GrewOne(x.context, r.context, e);
      NewIsHonest(x.context.history, e, config);
    } else {
      GrewNone(x.context, r.context);
      NothingNew(x.context.history, config);
    }
    GrewAlong(c, x.context, r.context);
    HonestOn(x.context.history, r.context.history, |c.history|, config);
    AllRememberOn(x.context, r.context, x.pending);
  }

  lemma AllRememberOn(c: Context, d: Context, pending: seq<Unfinished>)
    requires AllRemember(c, pending) && Grew(c, d)
    ensures AllRemember(d, pending)
  {
    hide Grew, Remembers;
    forall v | v in pending ensures Remembers(d, v) {
      RemembersOn(c, d, v);
    }
  }

  /** The call reports the test case as a whole: what all calls since its begin stand for. */
  ghost predicate HonestTest(h: seq<Entry>, since: nat, okToFail: bool, config: Config) {
    && since + 1 < |h| && h[since] == Begun([])
    && var n := |h| - 1;
       var w := Weight(h[since..n]);
       && h[n].Ended? && h[n].path == [] && h[n].since == since
       && (h[n].missing <==> w.Total() == 0 && config.warn && !h[n].hasChildren)
       && var a := WithFailure(w, h[n].missing);
          h[n].assertions == if okToFail then Counts(a.passed, 0, a.failed) else a
  }

  lemma EndTestHonest(c: Context, e: Context, okToFail: bool, config: Config)
    requires Grew(c, e) && |c.history| < |e.history| && e.history[|c.history|] == Begun([])
    ensures c.counts.AtMost(e.counts)
    ensures var d := EndTest(e, c.counts, |c.history|, okToFail, config);
            && HonestTest(d.history, |c.history|, okToFail, config)
            && d.history[..|d.history| - 1] == e.history
            && d.counts == Reclassified(c.counts.Plus(Weight(d.history[|c.history|..])), c.counts, okToFail)
  {
    hide Results, Missing, HasChildren;
    var d := EndTest(e, c.counts, |c.history|, okToFail, config);
    var last := d.history[|e.history|];
    assert d.history == e.history + [last];
    assert d.history[|c.history|..] == e.history[|c.history|..] + [last];
    assert d.history[|c.history|..|d.history| - 1] == e.history[|c.history|..];
    WeightNext(e.history[|c.history|..], last);
  }

  /** A pass reports every end of a section honestly, the test case's own last; that counts what the whole
      pass made, with its failures as tolerated ones if the test may fail. */
  lemma PassHonest(c: Context, s: Script, okToFail: bool, config: Config)
    requires [] in c.tracker.states
    ensures var d := Pass(c, s, okToFail, config);
            && HonestTest(d.history, |c.history|, okToFail, config)
            && AllHonest(d.history[..|d.history| - 1], |c.history|, config)
            && d.counts == Reclassified(c.counts.Plus(Weight(d.history[|c.history|..])), c.counts, okToFail)
  {
    hide AllHonest, Remembers, Unwinding, AllRemember, Weight, Grew, HonestTest, EndTest, ReplayEnds;
    var r := Unwinding(c, s, config);
    UnwindingHonest(c, s, config);
    ReplayHonest(r.context, r.pending, |r.pending|, config);
    var e := ReplayEnds(r.context, r.pending, |r.pending|, config);
    GrewAlong(c, r.context, e);
    HonestOn(r.context.history, e.history, |c.history|, config);
    EndTestHonest(c, e, okToFail, config);
  }

  /** A pass counts every assertion that passed and every one that failed exactly once, and one failure more
      for each end with an assertion missing; the failures are tolerated ones if the test may fail. */
  lemma PassCounted(c: Context, s: Script, okToFail: bool, config: Config)
    requires [] in c.tracker.states
    ensures var d := Pass(c, s, okToFail, config);
            var calls, delta := d.history[|c.history|..], d.counts.Minus(c.counts);
            && delta.passed == Results(calls, Ok)
            && delta.failed == (if okToFail then 0 else Results(calls, Failed) + Missing(calls))
            && delta.failedButOk == (if okToFail then Results(calls, Failed) + Missing(calls) else 0)
  {
    hide Pass, Results, Missing, HonestTest, AllHonest;
    PassHonest(c, s, okToFail, config);
  }

  lemma PassClassified(c: Context, s: Script, okToFail: bool, config: Config)
    requires [] in c.tracker.states
    ensures var d := Pass(c, s, okToFail, config).counts;
            && c.counts.AtMost(d)
            && if okToFail then d.failed == c.counts.failed else d.failedButOk == c.counts.failedButOk
  {
    hide Pass, Results, Missing;
    PassCounted(c, s, okToFail, config);
  }

  lemma {:induction false} PassesClassified(c: Context, s: Script, okToFail: bool, config: Config, n: nat)
    requires [] in c.tracker.states
    ensures var delta := RunPasses(c, s, okToFail, config, n).counts.Minus(c.counts);
            if okToFail then delta.failed == 0 else delta.failedButOk == 0
    decreases n
  {
    hide Pass, RunPasses;
    RunPassesNext(c, s, okToFail, config, n);
    if n > 0 {
      PassesClassified(c, s, okToFail, config, n - 1);
      PassClassified(RunPasses(c, s, okToFail, config, n - 1), s, okToFail, config);
    }
  }

  // ---------- the replayed ends ----------

  ghost predicate Reports(h: seq<Entry>, k: nat, path: Path, kids: bool) {
    k < |h| && h[k].Ended? && h[k].path == path && h[k].hasChildren == kids
  }

  /** The ends replayed after an exception report the unfinished sections last recorded first, while the
      tracker leaves them first recorded first: what is reported of children is of another section. */
  lemma {:induction false} ReplayReported(c: Context, pending: seq<Unfinished>, n: nat, config: Config)
    requires n <= |pending| && n <= |c.tracker.current| && AllBefore(pending, c.counts)
    ensures var h := ReplayEnds(c, pending, n, config).history;
            && |h| == |c.history| + n
            && forall i | 0 <= i < n ::
                 Reports(h, |c.history| + i, pending[n - 1 - i].path, HasChildren(Replay(c.tracker, i)))
    decreases n
  {
    hide HasChildren, LeftState, Misses;
    if n > 0 {
      var d := EndSection(c, pending[n - 1], config);
      ReplayReported(d, pending, n - 1, config);
      var h := ReplayEnds(c, pending, n, config).history;
      assert h[|c.history|] == d.history[|c.history|];
      forall i | 0 <= i < n
        ensures Reports(h, |c.history| + i, pending[n - 1 - i].path, HasChildren(Replay(c.tracker, i)))
      {
        if i > 0 {
          assert Reports(h, |d.history| + (i - 1), pending[n - 2 - (i - 1)].path,
                         HasChildren(Replay(d.tracker, i - 1)));
        }
      }
    }
  }

  /** Once a section has been left, the section around it has children. */
  lemma ReplayedHaveChildren(t: Tracker, i: nat)
    requires 0 < i <= |t.current|
    ensures HasChildren(Replay(t, i))
  {
    ReplayLast(t, i - 1);
    var u := Replay(t, i - 1);
    var key := u.current[|u.current| - 1];
    assert Leave(u).current + [key] == u.current;
  }

  /** So of the replayed ends only the first, which reports the outermost section, can have an assertion
      missing, and then if the innermost section has no children. */
  lemma OnlyFirstReplayedMisses(c: Context, pending: seq<Unfinished>, config: Config)
    requires |pending| <= |c.tracker.current| && AllBefore(pending, c.counts) && AllRemember(c, pending)
    ensures var h := ReplayEnds(c, pending, |pending|, config).history;
            && |h| == |c.history| + |pending|
            && (forall k | |c.history| < k < |h| :: h[k].Ended? && !h[k].missing)
            && (pending != [] ==>
                  var e := h[|c.history|];
                  && e.Ended? && e.path == pending[|pending| - 1].path
                  && (e.missing <==> config.warn && !HasChildren(c.tracker)
                                     && c.counts == pending[|pending| - 1].prev))
  {
    hide HasChildren, Leave, Remembers, Results, Missing, AllRemember, Grew, Replay, ReplayEnds, Honest;
    var n := |pending|;
    ReplayReported(c, pending, n, config);
    ReplayHonest(c, pending, n, config);
    var h := ReplayEnds(c, pending, n, config).history;
    forall k | |c.history| < k < |h| ensures h[k].Ended? && !h[k].missing {
      var i := k - |c.history|;
      assert Reports(h, |c.history| + i, pending[n - 1 - i].path, HasChildren(Replay(c.tracker, i)));
      ReplayedHaveChildren(c.tracker, i);
      WithChildrenNoneMisses(h, k, config);
    }
    if n > 0 {
      FirstReplayed(c, pending, n, config);
    }
  }

  lemma WithChildrenNoneMisses(h: seq<Entry>, k: nat, config: Config)
    requires k < |h| && Honest(h, k, config) && h[k].Ended? && h[k].hasChildren
    ensures !h[k].missing
  {
  }

  lemma FirstReplayed(c: Context, pending: seq<Unfinished>, n: nat, config: Config)
    requires 0 < n <= |pending| && n <= |c.tracker.current| && AllBefore(pending, c.counts)
    ensures var h := ReplayEnds(c, pending, n, config).history;
            && |h| > |c.history| && h[|c.history|].Ended? && h[|c.history|].path == pending[n - 1].path
            && pending[n - 1].prev.AtMost(c.counts)
            && (h[|c.history|].missing <==> Misses(c, pending[n - 1].prev, config))
  {
    hide HasChildren, LeftState, Misses;
    var d := EndSection(c, pending[n - 1], config);
    var h := ReplayEnds(d, pending, n - 1, config).history;
    assert h == ReplayEnds(c, pending, n, config).history;
    assert d.history <= h && d.history[|c.history|] == h[|c.history|];
  }
}
