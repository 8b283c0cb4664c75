/** What the tracker answers about children when a section ends in the ordinary way: whether the body of
    that section has sections of its own. */
module RunnerFlags {
  import opened TestBodies
  import opened TrackerModel
  import opened SectionResults
  import opened KnownSections
  import opened RunnerModel
  import opened RunnerCounts

  // ---------- the flags of ordinary ends ----------

  /** From call `from` on every end is of a section of the body, and is reported with children exactly if
      that section has sections of its own. */
  ghost predicate FlagsRight(h: seq<Entry>, from: nat, p: Path, w: Body) {
    forall j | from <= j < |h| && h[j].Ended? ::
      && p < h[j].path && InBody(w, h[j].path[|p|..])
      && (h[j].hasChildren <==> !LeafAmong(w, h[j].path[|p|..]))
  }

  lemma FlagsOn(h: seq<Entry>, g: seq<Entry>, from: nat, p: Path, w: Body)
    requires FlagsRight(h, from, p, w) && h <= g && FlagsRight(g, |h|, p, w)
    ensures FlagsRight(g, from, p, w)
  {
    forall j | from <= j < |g| && g[j].Ended?
      ensures p < g[j].path && InBody(w, g[j].path[|p|..]) && (g[j].hasChildren <==> !LeafAmong(w, g[j].path[|p|..]))
    {
      if j < |h| {
        assert g[j] == h[j];
      }
    }
  }

  lemma FlagsAround(h: seq<Entry>, from: nat, p: Path, b: Body, w: Body)
    requires b.Section? && IsTail(b, w) && Distinct(w) && FlagsRight(h, from, p + [b.key], b.inner)
    ensures FlagsRight(h, from, p, w)
  {
    forall j | from <= j < |h| && h[j].Ended?
      ensures p < h[j].path && InBody(w, h[j].path[|p|..]) && (h[j].hasChildren <==> !LeafAmong(w, h[j].path[|p|..]))
    {
      var rel, child := h[j].path[|p|..], p + [b.key];
      assert child < h[j].path && rel[0] == child[|p|] && rel[1..] == h[j].path[|child|..];
      TailDecides(b, w, rel);
    }
  }

  lemma {:induction false} ExecFlags(c: Context, s: Script, w: Body, config: Config)
    requires IsTail(Erase(s), w) && Distinct(w) && Fits(c.tracker.states, c.tracker.current, w)
    ensures FlagsRight(Exec(c, s, config).context.history, |c.history|, c.tracker.current, w)
    decreases s
  {
    hide FlagsRight, Fits, Distinct, IsTail, Enters, HasChildren, Misses;
    match s
    case Finish => NoFlags(c.history, c.tracker.current, w);
    case Raise(_) => NoFlags(c.history, c.tracker.current, w);
    case Check(result, rest) =>
      var a := Assert(c, result);
      OtherFlags(c.history, Asserted(result), c.tracker.current, w);
      ExecFlags(a, rest, w, config);
      FlagsOn(a.history, Exec(a, rest, config).context.history, |c.history|, c.tracker.current, w);
    case Nest(key, inner, rest) =>
      var b := Erase(s);
      TailOfTail(b, w);
      if Enters(c.tracker, key) {
        NestFlags(c, key, inner, rest, w, config);
      } else {
        AcquiredFits(c.tracker, b, w);
        ExecFlags(c.(tracker := Acquire(c.tracker, key)), rest, w, config);
      }
  }

  lemma NoFlags(h: seq<Entry>, p: Path, w: Body)
    ensures FlagsRight(h, |h|, p, w)
  {
  }

  lemma OtherFlags(h: seq<Entry>, e: Entry, p: Path, w: Body)
    requires !e.Ended?
    ensures FlagsRight(h + [e], |h|, p, w)
  {
  }

  lemma {:induction false} NestFlags(c: Context, key: Key, inner: Script, rest: Script, w: Body, config: Config)
    requires Enters(c.tracker, key)
    requires IsTail(Erase(Nest(key, inner, rest)), w) && IsTail(Erase(rest), w) && Distinct(w)
    requires Fits(c.tracker.states, c.tracker.current, w)
    ensures FlagsRight(Exec(c, Nest(key, inner, rest), config).context.history, |c.history|, c.tracker.current, w)
    decreases Nest(key, inner, rest), 0
  {
    hide FlagsRight, Fits, Distinct, IsTail, Enters, HasChildren, Misses;
    var p, b := c.tracker.current, Erase(Nest(key, inner, rest));
    var path := p + [key];
    var begun := Begin(c.(tracker := Enter(c.tracker, key)), path);
    var u := Unfinished(path, c.counts, |c.history|);
    var r := Exec(begun, inner, config);
    WithinItself(b);
    ChildFits(c.tracker, b, b, w);
    OtherFlags(c.history, Begun(path), path, b.inner);
    WholeTail(b.inner);
    ExecFlags(begun, inner, b.inner, config);
    FlagsOn(begun.history, r.context.history, |c.history|, path, b.inner);
    FlagsAround(r.context.history, |c.history|, p, b, w);
    if !r.threw {
      var d := EndSection(r.context, u, config);
      ChildrenFound(begun.tracker, b.inner);
      EndFlag(r.context, u, p, b, w, config);
      FlagsOn(r.context.history, d.history, |c.history|, p, w);
      FitsOnKeys(r.context.tracker.states, d.tracker.states, p, w);
      ExecFlags(d, rest, w, config);
      FlagsOn(d.history, Exec(d, rest, config).context.history, |c.history|, p, w);
    }
  }

  lemma EndFlag(c: Context, u: Unfinished, p: Path, b: Body, w: Body, config: Config)
    requires b.Section? && IsTail(b, w) && Distinct(w) && u.path == p + [b.key] == c.tracker.current
    requires u.prev.AtMost(c.counts) && (HasChildren(c.tracker) <==> b.inner.Section?)
    ensures FlagsRight(EndSection(c, u, config).history, |c.history|, p, w)
  {
    hide HasChildren, Misses, LeftState;
    var rel := u.path[|p|..];
    assert rel == [b.key] && rel[1..] == [];
    TailDecides(b, w, rel);
  }

  // ---------- for every pass ----------

  lemma {:induction false} CourseWithin(c: Context, s: Script, config: Config)
    ensures Within(Exec(c, s, config).course, Erase(s))
    decreases s
  {
    hide Enters, EndSection, Invoke;
    match s
    case Finish =>
    case Raise(_) =>
    case Check(result, rest) => CourseWithin(Assert(c, result), rest, config);
    case Nest(key, inner, rest) =>
      WithinItself(Erase(inner));
      WithinItself(Erase(rest));
      if Enters(c.tracker, key) {
        var path := c.tracker.current + [key];
        var begun := Begin(c.(tracker := Enter(c.tracker, key)), path);
        var r := Exec(begun, inner, config);
        CourseWithin(begun, inner, config);
        if !r.threw {
          CourseWithin(EndSection(r.context, Unfinished(path, c.counts, |c.history|), config), rest, config);
        }
      } else {
        CourseWithin(c.(tracker := Acquire(c.tracker, key)), rest, config);
      }
  }

  /** The tracker knows only the test case and sections of the script. */
  ghost predicate Familiar(t: Tracker, s: Script) {
    [] in t.states && Fits(t.states, [], Erase(s))
  }

  lemma PassFamiliar(c: Context, s: Script, okToFail: bool, config: Config)
    requires Distinct(Erase(s)) && Familiar(c.tracker, s)
    ensures Familiar(Pass(c, s, okToFail, config).tracker, s)
  {
    hide Fits, Distinct, Exec, Invoke, Replay;
    var begun := Begin(c.(tracker := EnterTestCase(c.tracker)), []);
    CourseWithin(begun, s, config);
    PassFits(c.tracker, Exec(begun, s, config).course, Erase(s));
  }

  /** So it is after any passes, whether or not the run was aborting in some of them. */
  lemma {:induction false} PassesFamiliar(c: Context, s: Script, okToFail: bool, config: Config, n: nat)
    requires Distinct(Erase(s)) && c.tracker == FRESH
    ensures Familiar(RunPasses(c, s, okToFail, config, n).tracker, s)
    decreases n
  {
    hide Pass, Fits, RunPasses;
    RunPassesNext(c, s, okToFail, config, n);
    if n > 0 {
      PassesFamiliar(c, s, okToFail, config, n - 1);
      PassFamiliar(RunPasses(c, s, okToFail, config, n - 1), s, okToFail, config);
    } else {
      NothingFamiliar(s);
    }
  }

  lemma NothingFamiliar(s: Script)
    ensures Familiar(FRESH, s)
  {
  }

  lemma EnteredFamiliar(t: Tracker, s: Script)
    requires Familiar(t, s)
    ensures Familiar(EnterTestCase(t), s)
  {
  }

  /** In every pass the sections that end in the ordinary way are reported to the missing-assertion test
      with children exactly if their bodies have sections. */
  lemma OrdinaryEndsAreRight(c: Context, s: Script, config: Config)
    requires Distinct(Erase(s)) && Familiar(c.tracker, s)
    ensures FlagsRight(Unwinding(c, s, config).context.history, |c.history|, [], Erase(s))
  {
    hide FlagsRight, Fits, Distinct, Erase, Exec, Invoke;
    var b := Erase(s);
    EnteredFamiliar(c.tracker, s);
    WholeTail(b);
    var begun := Begin(c.(tracker := EnterTestCase(c.tracker)), []);
    OtherFlags(c.history, Begun([]), [], b);
    ExecFlags(begun, s, b, config);
    var x := Exec(begun, s, config);
    FlagsOn(begun.history, x.context.history, |c.history|, [], b);
    if x.report.Some? {
      OtherFlags(x.context.history, Asserted(x.report.value), [], b);
      FlagsOn(x.context.history, x.context.history + [Asserted(x.report.value)], |c.history|, [], b);
    }
  }

  /** So the end of such a section has an assertion missing exactly if the option is set, the section has no
      sections, and nothing was counted since it began. */
  lemma OrdinaryMissesIff(c: Context, s: Script, config: Config, j: nat)
    requires Distinct(Erase(s)) && Familiar(c.tracker, s)
    requires var h := Unwinding(c, s, config).context.history; |c.history| <= j < |h| && h[j].Ended?
    ensures var h := Unwinding(c, s, config).context.history;
            && h[j].since < j
            && (h[j].missing
                <==> config.warn && LeafAmong(Erase(s), h[j].path) && Weight(h[h[j].since..j]).Total() == 0)
  {
    hide Unwinding, Results, Missing, Grew, AllRemember, LeafAmong, InBody, Fits;
    UnwindingHonest(c, s, config);
    OrdinaryEndsAreRight(c, s, config);
    var h := Unwinding(c, s, config).context.history;
    assert Honest(h, j, config);
    var root: Path := [];
    assert h[j].path[|root|..] == h[j].path;
  }

  /** The test case itself is found to have children exactly if its body has sections, unless the run aborts
      before their code. */
  lemma TestEndIsRight(c: Context, s: Script, okToFail: bool, config: Config)
    requires Distinct(Erase(s)) && Familiar(c.tracker, s)
    ensures var h := Pass(c, s, okToFail, config).history;
            && h != [] && h[|h| - 1].Ended?
            && (!Unwinding(c, s, config).aborted ==> (h[|h| - 1].hasChildren <==> Erase(s).Section?))
  {
    hide Unwinding, ReplayEnds, Invoke;
    var b := Erase(s);
    var r := Unwinding(c, s, config);
    if !r.aborted {
      var e := ReplayEnds(r.context, r.pending, |r.pending|, config);
      PassFamiliar(c, s, okToFail, config);
      if b.Section? {
        FirstKnown(EnterTestCase(c.tracker), b);
        assert [] + [b.key] in e.tracker.states;
      } else {
        var root: Path := [];
        forall k: Key ensures root + [k] !in e.tracker.states {
          assert (root + [k])[|root|..] == [k] && root < root + [k];
        }
      }
    }
  }
}
