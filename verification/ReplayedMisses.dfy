/** Whether the ends replayed after an exception report a missing assertion of the right section. */
module ReplayedMisses {
  import opened Basics
  import opened TestBodies
  import opened TrackerModel
  import opened TrackerTheorems
  import opened SectionResults
  import opened KnownSections
  import opened ThrownRuns
  import opened TotalsKeeping
  import opened RunnerModel
  import opened RunnerCounts
  import opened RunnerFlags

  // ---------- the innermost section left ----------

  /** The innermost section that an exception leaves has known children exactly if its body has sections. */
  lemma {:induction false} ThrownChildren(t: Tracker, b: Body, w: Body)
    requires IsTail(b, w) && Distinct(w) && Fits(t.states, t.current, w) && Invoke(t, b).pending != []
    ensures var u := Invoke(t, b);
            var rel := u.tracker.current[|t.current|..];
            InBody(w, rel) && (HasChildren(u.tracker) <==> !LeafAmong(w, rel))
    decreases b
  {
    hide Fits, Distinct, IsTail, HasChildren, LeafAmong, InBody;
    TailOfTail(b, w);
    if Enters(t, b.key) {
      var u := Invoke(Enter(t, b.key), b.inner);
      WithinItself(b);
      ChildFits(t, b, b, w);
      if u.threw {
        ThrownInside(t, b, w);
      } else {
        LeavesBack(t, b.key, u);
        FitsOnKeys(u.tracker.states, Leave(u.tracker).states, t.current, w);
        ThrownChildren(Leave(u.tracker), b.next, w);
      }
    } else {
      AcquiredFits(t, b, w);
      ThrownChildren(Acquire(t, b.key), b.next, w);
    }
  }

  lemma {:induction false} ThrownInside(t: Tracker, b: Body, w: Body)
    requires b.Section? && Enters(t, b.key) && Invoke(Enter(t, b.key), b.inner).threw
    requires IsTail(b, w) && Distinct(w) && Fits(t.states, t.current, w)
    ensures var u := Invoke(Enter(t, b.key), b.inner);
            var rel := u.tracker.current[|t.current|..];
            InBody(w, rel) && (HasChildren(u.tracker) <==> !LeafAmong(w, rel))
    decreases b, 0
  {
    hide Fits, IsTail, HasChildren;
    var e := Enter(t, b.key);
    var u := Invoke(e, b.inner);
    var rel := u.tracker.current[|t.current|..];
    WithinItself(b);
    ChildFits(t, b, b, w);
    assert u.tracker.current[..|e.current|] == e.current;
    assert rel[0] == b.key && rel[1..] == u.tracker.current[|e.current|..];
    TailDecides(b, w, rel);
    if u.pending == [] {
      assert u.tracker.current == e.current && rel[1..] == [];
      ThrownHere(e, b.inner);
    } else {
      WholeTail(b.inner);
      ThrownChildren(e, b.inner, b.inner);
      assert rel[1..] != [];
    }
  }

  /** An exception thrown by the statements of a section itself. */
  lemma ThrownHere(t: Tracker, b: Body)
    requires Invoke(t, b).pending == [] && Fits(t.states, t.current, b) && Distinct(b)
    ensures HasChildren(Invoke(t, b).tracker) <==> b.Section?
  {
    hide Invoke, Distinct, InBody;
    var u := Invoke(t, b).tracker;
    assert u.current == t.current;
    if b.Section? {
      FirstKnown(t, b);
    } else {
      LeafThrows(t, b);
      forall k: Key ensures t.current + [k] !in u.states {
        if t.current + [k] in u.states {
          assert (t.current + [k])[|t.current|..] == [k] && t.current < t.current + [k];
          assert InBody(b, [k]);
          NoneInLeaf(b, [k]);
        }
      }
    }
  }

  lemma NoneInLeaf(b: Body, rel: Path)
    requires !b.Section?
    ensures !InBody(b, rel)
  {
  }

  lemma UnwoundChildren(c: Context, s: Script, config: Config)
    requires Distinct(Erase(s)) && Familiar(c.tracker, s)
    requires Unwinding(c, s, config).pending != [] && !Unwinding(c, s, config).aborted
    ensures var t := Unwinding(c, s, config).context.tracker;
            HasChildren(t) <==> !LeafAmong(Erase(s), t.current)
  {
    hide Fits, Distinct, LeafAmong, Erase, Exec, Invoke, InBody;
    var t0 := EnterTestCase(c.tracker);
    EnteredFamiliar(c.tracker, s);
    WholeTail(Erase(s));
    ThrownChildren(t0, Erase(s), Erase(s));
    var u := Invoke(t0, Erase(s)).tracker;
    assert u.current[|t0.current|..] == u.current;
    assert forall k: Key :: u.current + [k] in LeaveTestCase(u).states <==> u.current + [k] in u.states;
  }

  // ---------- the counts at the begin of the sections left ----------

  /** From the innermost section outwards the counts at the begin do not grow. */
  ghost predicate Shrinking(pending: seq<Unfinished>, least: Counts) {
    && (forall j | 0 <= j < |pending| :: least.AtMost(pending[j].prev))
    && forall i, j | 0 <= i < j < |pending| :: pending[j].prev.AtMost(pending[i].prev)
  }

  lemma ShrinkingOutwards(pending: seq<Unfinished>, u: Unfinished)
    requires Shrinking(pending, u.prev)
    ensures Shrinking(pending + [u], u.prev)
  {
  }

  lemma ShrinkingFrom(pending: seq<Unfinished>, least: Counts, less: Counts)
    requires Shrinking(pending, least) && less.AtMost(least)
    ensures Shrinking(pending, less)
  {
  }

  lemma {:induction false} ExecShrinking(c: Context, s: Script, config: Config)
    ensures Shrinking(Exec(c, s, config).pending, c.counts)
    decreases s
  {
    hide Enters, EndSection, Invoke, Shrinking, Scored;
    var r := Exec(c, s, config);
    match s
    case Finish => NoneShrinking(c.counts);
    case Raise(_) => NoneShrinking(c.counts);
    case Check(result, rest) =>
      NoneShrinking(c.counts);
      ExecShrinking(Assert(c, result), rest, config);
      if !Aborts(Assert(c, result), result, config) {
        ShrinkingFrom(r.pending, Assert(c, result).counts, c.counts);
      }
    case Nest(key, inner, rest) =>
      if Enters(c.tracker, key) {
        var path := c.tracker.current + [key];
        var begun := Begin(c.(tracker := Enter(c.tracker, key)), path);
        var u := Unfinished(path, c.counts, |c.history|);
        var x := Exec(begun, inner, config);
        ExecShrinking(begun, inner, config);
        if x.threw {
          ShrinkingOutwards(x.pending, u);
        } else {
          var d := EndSection(x.context, u, config);
          ExecShrinking(d, rest, config);
          ShrinkingFrom(r.pending, d.counts, c.counts);
        }
      } else {
        ExecShrinking(c.(tracker := Acquire(c.tracker, key)), rest, config);
      }
  }

  lemma NoneShrinking(least: Counts)
    ensures Shrinking([], least)
  {
  }

  /** The failure at which a run aborts was counted after every section left began. */
  ghost predicate FailedSince(pending: seq<Unfinished>, c: Counts) {
    forall u | u in pending :: u.prev.failed < c.failed
  }

  lemma {:induction false} AbortFails(c: Context, s: Script, config: Config)
    requires Exec(c, s, config).aborted
    ensures var r := Exec(c, s, config);
            c.counts.failed < r.context.counts.failed && FailedSince(r.pending, r.context.counts)
    decreases s
  {
    hide Enters, EndSection, Invoke;
    match s
    case Check(result, rest) =>
      if !Aborts(Assert(c, result), result, config) {
        AbortFails(Assert(c, result), rest, config);
      }
    case Nest(key, inner, rest) =>
      if Enters(c.tracker, key) {
        var path := c.tracker.current + [key];
        var begun := Begin(c.(tracker := Enter(c.tracker, key)), path);
        var r := Exec(begun, inner, config);
        if r.threw {
          AbortFails(begun, inner, config);
        } else {
          AbortFails(EndSection(r.context, Unfinished(path, c.counts, |c.history|), config), rest, config);
        }
      } else {
        AbortFails(c.(tracker := Acquire(c.tracker, key)), rest, config);
      }
  }

  // ---------- which ends report a missing assertion ----------

  /** Of the sections left only the innermost can be without sections. It ought to be reported with an
      assertion missing if it is, the option is set and nothing was counted since it began. */
  ghost predicate Ought(c: Context, pending: seq<Unfinished>, j: nat, config: Config)
    requires j < |pending|
  {
    j == 0 && config.warn && !HasChildren(c.tracker) && c.counts == pending[0].prev
  }

  ghost predicate Replayable(c: Context, pending: seq<Unfinished>) {
    && |pending| <= |c.tracker.current| && AllBefore(pending, c.counts) && AllRemember(c, pending)
    && Shrinking(pending, ZERO)
  }

  /** The replayed end number `i` is of the section recorded as often from the end, and reports what that
      ought to get. */
  ghost predicate EndsRight(c: Context, pending: seq<Unfinished>, config: Config, i: nat)
    requires |pending| <= |c.tracker.current| && AllBefore(pending, c.counts) && i < |pending|
  {
    var h, k, j := ReplayEnds(c, pending, |pending|, config).history, |c.history| + i, |pending| - 1 - i;
    && k < |h| && h[k].Ended? && h[k].path == pending[j].path
    && (h[k].missing <==> Ought(c, pending, j, config))
  }

  ghost predicate AsTheyOught(c: Context, pending: seq<Unfinished>, config: Config)
    requires |pending| <= |c.tracker.current| && AllBefore(pending, c.counts)
  {
    forall i | 0 <= i < |pending| :: EndsRight(c, pending, config, i)
  }

  /** If nothing was counted since the outermost section began, nothing was since the innermost did. */
  lemma CountedInside(c: Context, pending: seq<Unfinished>)
    requires Replayable(c, pending) && pending != [] && c.counts == pending[|pending| - 1].prev
    ensures c.counts == pending[0].prev
  {
    assert pending[0] in pending && pending[0].prev.AtMost(c.counts);
    assert |pending| > 1 ==> pending[|pending| - 1].prev.AtMost(pending[0].prev);
  }

  /** Which of them is wrong: the last, which is of the innermost section, and the first, of the outermost. */
  lemma EndRightIff(c: Context, pending: seq<Unfinished>, config: Config, i: nat)
    requires Replayable(c, pending) && i < |pending|
    ensures var n := |pending|;
            EndsRight(c, pending, config, i)
            <==> || n == 1 || 0 < i < n - 1 || !config.warn || HasChildren(c.tracker)
                 || c.counts != pending[if i == 0 then n - 1 else 0].prev
  {
    hide HasChildren, AllRemember, ReplayEnds, AllBefore, Shrinking;
    var n := |pending|;
    OnlyFirstReplayedMisses(c, pending, config);
    ReplayReported(c, pending, n, config);
    var h := ReplayEnds(c, pending, n, config).history;
    var k := |c.history| + i;
    assert Reports(h, k, pending[n - 1 - i].path, HasChildren(Replay(c.tracker, i)));
    assert i > 0 ==> !h[k].missing;
  }

  /** All ends are right if and only if at most one section is left, the option is not set, the innermost
      section has children, or something was counted since it began. */
  lemma ReplayRightIff(c: Context, pending: seq<Unfinished>, config: Config)
    requires Replayable(c, pending)
    ensures AsTheyOught(c, pending, config)
            <==> |pending| <= 1 || !config.warn || HasChildren(c.tracker) || c.counts != pending[0].prev
  {
    hide HasChildren, AllRemember, ReplayEnds, AllBefore, Shrinking, EndsRight;
    var n := |pending|;
    forall i | 0 <= i < n
      ensures EndsRight(c, pending, config, i)
              <==> || n == 1 || 0 < i < n - 1 || !config.warn || HasChildren(c.tracker)
                   || c.counts != pending[if i == 0 then n - 1 else 0].prev
    {
      EndRightIff(c, pending, config, i);
    }
    if n > 1 {
      assert EndsRight(c, pending, config, n - 1)
          <==> !config.warn || HasChildren(c.tracker) || c.counts != pending[0].prev;
      if c.counts == pending[n - 1].prev {
        CountedInside(c, pending);
      }
    }
  }

  // ---------- for every pass ----------

  lemma UnwoundReplayable(c: Context, s: Script, config: Config)
    requires [] in c.tracker.states
    ensures var r := Unwinding(c, s, config);
            && Replayable(r.context, r.pending)
            && (r.aborted ==> FailedSince(r.pending, r.context.counts))
  {
    hide Exec, Invoke, Remembers, Shrinking, AllHonest, Grew;
    var begun := Begin(c.(tracker := EnterTestCase(c.tracker)), []);
    UnwindingHonest(c, s, config);
    ExecShrinking(begun, s, config);
    var x := Exec(begun, s, config);
    ShrinkingFrom(x.pending, begun.counts, ZERO);
    if x.aborted {
      AbortFails(begun, s, config);
    }
  }

  /** In any pass, also one in which the run aborts, the replayed ends report what their sections ought to get
      if and only if at most one section is left, the option is not set, the innermost one left has sections
      of its own in the script, or something was counted since it began. */
  lemma PassReplayIff(c: Context, s: Script, config: Config)
    requires Distinct(Erase(s)) && Familiar(c.tracker, s)
    ensures var r := Unwinding(c, s, config);
            && Replayable(r.context, r.pending)
            && (AsTheyOught(r.context, r.pending, config)
                <==> || |r.pending| <= 1 || !config.warn || !LeafAmong(Erase(s), r.context.tracker.current)
                     || r.context.counts != r.pending[0].prev)
            && (r.aborted ==> AsTheyOught(r.context, r.pending, config))
  {
    hide Unwinding, LeafAmong, HasChildren, AllRemember, Shrinking, AllBefore, AsTheyOught, Fits, Distinct, Erase;
    var r := Unwinding(c, s, config);
    UnwoundReplayable(c, s, config);
    ReplayRightIff(r.context, r.pending, config);
    if r.pending != [] {
      assert r.pending[0] in r.pending;
      if !r.aborted {
        UnwoundChildren(c, s, config);
      }
    }
  }

  lemma {:induction false} AfterFamiliar(s: Script, i: nat)
    requires Distinct(Erase(s))
    ensures Familiar(After(Erase(s), i), s)
    decreases i
  {
    hide Fits, RunOnce, Distinct;
    if i == 0 {
      NothingFamiliar(s);
    } else {
      AfterFamiliar(s, i - 1);
      WithinItself(Erase(s));
      PassFits(After(Erase(s), i - 1), Erase(s), Erase(s));
    }
  }

  /** In pass `i` of a body, as far as the run does not abort in it, that is read off the body: the sections
      left are as many as `LeftCount` says, and the innermost is the one `LeftPath` leads to. */
  lemma RunReplayIff(c: Context, s: Script, i: nat, config: Config)
    requires Distinct(Erase(s)) && i < TotalRuns(Erase(s)) && c.tracker == After(Erase(s), i)
    requires !Unwinding(c, s, config).aborted
    ensures var b, r := Erase(s), Unwinding(c, s, config);
            && |r.pending| == LeftCount(b, i) && Replayable(r.context, r.pending)
            && (AsTheyOught(r.context, r.pending, config)
                <==> || LeftCount(b, i) <= 1 || !config.warn || !LeafAmong(b, LeftPath(b, i))
                     || r.context.counts != r.pending[0].prev)
  {
    hide Unwinding, LeafAmong, AsTheyOught, Replayable, Fits, Distinct, Erase, After, TotalRuns, LeftPath, LeftCount;
    AfterFamiliar(s, i);
    PassReplayIff(c, s, config);
    UnwoundIsLeft(c, s, i, config);
  }

  lemma UnwoundIsLeft(c: Context, s: Script, i: nat, config: Config)
    requires Distinct(Erase(s)) && i < TotalRuns(Erase(s)) && c.tracker == After(Erase(s), i)
    requires !Unwinding(c, s, config).aborted
    ensures var b, r := Erase(s), Unwinding(c, s, config);
            |r.pending| == LeftCount(b, i) && r.context.tracker.current == LeftPath(b, i)
  {
    hide Exec, Invoke, After, TotalRuns, LeftPath, LeftCount, Distinct;
    PassLeaves(Erase(s), i);
  }

  lemma TwoLeftLeaves()
    ensures var b := Erase(TWO_LEFT);
            !LeafAmong(b, ["a"]) && LeafAmong(b, ["a", "b"]) && b == Section("a", Section("b", Throw, Done), Done)
  {
    TwoLeftErased();
    assert ["a", "b"][1..] == ["b"] && ["a"][1..] == [] && ["b"][1..] == [];
  }

  lemma TwoLeftUnwound(c: Context, config: Config)
    requires c.tracker == FRESH
    ensures var r := Unwinding(c, TWO_LEFT, config);
            && |r.pending| == 2 && r.pending[0].path == ["a", "b"] && r.pending[1].path == ["a"]
            && r.context.counts == r.pending[0].prev == r.pending[1].prev
            && r.context.tracker.current == ["a", "b"] && !HasChildren(r.context.tracker)
  {
    hide Unwinding, LeftPath, LeftCount, HasChildren, TotalRuns, Erase, LeafAmong, Invoke;
    TwoLeft();
    TwoLeftLeaves();
    TwoLeftUnaborted(c, config);
    UnwoundIsLeft(c, TWO_LEFT, 0, config);
    AfterFamiliar(TWO_LEFT, 0);
    UnwoundChildren(c, TWO_LEFT, config);
    PendingPaths(c, TWO_LEFT, config);
    var path := ["a", "b"];
    assert path[..2] == path && path[..1] == ["a"];
  }

  /** Of two sections left the outer one is reported with an assertion missing and the inner one is not. */
  ghost predicate OuterMisses(c: Context, pending: seq<Unfinished>, config: Config)
    requires Replayable(c, pending) && |pending| == 2
  {
    var n, h := |c.history|, ReplayEnds(c, pending, 2, config).history;
    && |h| == n + 2
    && h[n].Ended? && h[n].path == pending[1].path && h[n].missing
    && h[n + 1].Ended? && h[n + 1].path == pending[0].path && !h[n + 1].missing
  }

  lemma EmptyInnermost(c: Context, pending: seq<Unfinished>, config: Config)
    requires Replayable(c, pending) && |pending| == 2 && config.warn && !HasChildren(c.tracker)
    requires c.counts == pending[0].prev == pending[1].prev
    ensures !AsTheyOught(c, pending, config) && OuterMisses(c, pending, config)
  {
    hide ReplayEnds, HasChildren, AllRemember, Shrinking, Replay, AsTheyOught, AllBefore;
    ReplayRightIff(c, pending, config);
    OnlyFirstReplayedMisses(c, pending, config);
    ReplayReported(c, pending, 2, config);
    var n, h := |c.history|, ReplayEnds(c, pending, 2, config).history;
    assert Reports(h, n, pending[1].path, HasChildren(Replay(c.tracker, 0)));
    assert Reports(h, n + 1, pending[0].path, HasChildren(Replay(c.tracker, 1)));
  }

  /** With the option set and nothing asserted anywhere, the outer section, which has a section, is reported
      with an assertion missing, and the inner one, which is empty, is not. */
  lemma EmptyLeafLost(c: Context, config: Config)
    requires c.tracker == FRESH && config.warn
    ensures var b, r := Erase(TWO_LEFT), Unwinding(c, TWO_LEFT, config);
            && Replayable(r.context, r.pending) && |r.pending| == 2
            && r.pending[1].path == ["a"] && !LeafAmong(b, ["a"])
            && r.pending[0].path == ["a", "b"] && LeafAmong(b, ["a", "b"])
            && !AsTheyOught(r.context, r.pending, config) && OuterMisses(r.context, r.pending, config)
  {
    hide Unwinding, HasChildren, Replayable, AsTheyOught, OuterMisses, LeafAmong, Erase;
    var r := Unwinding(c, TWO_LEFT, config);
    TwoLeftLeaves();
    TwoLeftUnwound(c, config);
    UnwoundReplayable(c, TWO_LEFT, config);
    EmptyInnermost(r.context, r.pending, config);
  }

  lemma PendingPaths(c: Context, s: Script, config: Config)
    requires [] in c.tracker.states
    ensures var r := Unwinding(c, s, config);
            && |r.pending| == |r.context.tracker.current|
            && forall j | 0 <= j < |r.pending| ::
                 r.pending[j].path == r.context.tracker.current[..|r.pending| - j]
  {
    hide Exec, Invoke;
  }

  // ---------- the exception itself ----------

  /** The ends from call `from` on count a failure each, and none of them finds an assertion missing. */
  ghost predicate AllFailed(h: seq<Entry>, from: nat) {
    forall k | from <= k < |h| :: h[k].Ended? && h[k].assertions.failed > 0 && !h[k].missing
  }

  lemma FailedEnd(c: Context, u: Unfinished, config: Config)
    requires c.tracker.current != [] && u.prev.AtMost(c.counts) && u.prev.failed < c.counts.failed
    ensures var d := EndSection(c, u, config); d.counts == c.counts && AllFailed(d.history, |c.history|)
  {
    hide HasChildren, LeftState;
  }

  lemma AllFailedOn(h: seq<Entry>, g: seq<Entry>, from: nat)
    requires h <= g && from <= |h| && AllFailed(h, from) && AllFailed(g, |h|)
    ensures AllFailed(g, from)
  {
    forall k | from <= k < |h| ensures g[k].Ended? && g[k].assertions.failed > 0 && !g[k].missing {
      assert g[k] == h[k];
    }
  }

  lemma {:induction false} FailedEnds(c: Context, pending: seq<Unfinished>, n: nat, config: Config)
    requires n <= |pending| && n <= |c.tracker.current| && AllBefore(pending, c.counts)
    requires FailedSince(pending, c.counts)
    ensures var d := ReplayEnds(c, pending, n, config); d.counts == c.counts && AllFailed(d.history, |c.history|)
    decreases n
  {
    hide EndSection, AllFailed, LeftState;
    if n == 0 {
      assert AllFailed(c.history, |c.history|) by { NoEnds(c.history); }
    } else {
      var u := pending[n - 1];
      assert u in pending;
      FailedEnd(c, u, config);
      var d := EndSection(c, u, config);
      FailedEnds(d, pending, n - 1, config);
      AllFailedOn(d.history, ReplayEnds(d, pending, n - 1, config).history, |c.history|);
    }
  }

  lemma NoEnds(h: seq<Entry>)
    ensures AllFailed(h, |h|)
  {
  }

  /** An exception that is reported is a failure of every section it leaves: it is counted before they end. */
  lemma ThrownIsCounted(c: Context, s: Script, config: Config)
    requires [] in c.tracker.states && Unwinding(c, s, config).report == Some(Failed)
    ensures var r := Unwinding(c, s, config);
            && Replayable(r.context, r.pending)
            && r.context.history != [] && r.context.history[|r.context.history| - 1] == Asserted(Failed)
            && AllFailed(ReplayEnds(r.context, r.pending, |r.pending|, config).history, |r.context.history|)
  {
    UnwoundReplayable(c, s, config);
    ReportedLast(c, s, config);
    hide Unwinding, ReplayEnds, AllFailed, FailedSince, HasChildren;
    var r := Unwinding(c, s, config);
    FailedEnds(r.context, r.pending, |r.pending|, config);
  }

  lemma ReportedLast(c: Context, s: Script, config: Config)
    requires [] in c.tracker.states && Unwinding(c, s, config).report == Some(Failed)
    ensures var r := Unwinding(c, s, config);
            && FailedSince(r.pending, r.context.counts)
            && r.context.history != [] && r.context.history[|r.context.history| - 1] == Asserted(Failed)
  {
    hide Exec, Invoke, LeftState, Replayable;
    ExecBefore(Begin(c.(tracker := EnterTestCase(c.tracker)), []), s, config);
  }
}
