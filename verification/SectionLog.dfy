/** What the log of entered and left sections says once the loop has ended, and what the
    state of a section says while it runs. */
module SectionLog {
  import opened Basics
  import opened TestBodies
  import opened TrackerModel
  import opened TrackerProofs
  import opened TrackerTheorems
  import opened SectionResults

  // ---------- the log ----------

  /** How many of the first `k` passes go through the section at `q`. */
  ghost function PassesThrough(b: Body, k: nat, q: Path): nat
    requires k <= ForestCount(b)
    decreases k
  {
    if k == 0 then 0
    else PassesThrough(b, k - 1, q) + if q <= ForestRun(b, k - 1).path then 1 else 0
  }

  lemma CountConcat<T>(a: seq<T>, b: seq<T>, x: T)
    ensures multiset(a + b)[x] == multiset(a)[x] + multiset(b)[x]
  {
  }

  lemma Along(p: Path, rel: Path, q: Path)
    requires rel != []
    ensures p + [rel[0]] + rel[1..] == p + rel
    ensures p < q && q <= p + rel <==> q == p + [rel[0]] || (p + [rel[0]] < q && q <= p + rel)
  {
    var child := p + [rel[0]];
    assert child + rel[1..] == p + rel;
    if p < q && q <= p + rel && q != child {
      assert q[|p|] == (p + rel)[|p|] == rel[0];
    }
  }

  lemma {:induction false} TraceCount(p: Path, rel: Path, q: Path)
    ensures multiset(Trace(p, rel))[Entered(q)] == (if p < q && q <= p + rel then 1 else 0)
    ensures multiset(Trace(p, rel))[Left(q)] == (if p < q && q <= p + rel then 1 else 0)
    decreases |rel|
  {
    if rel == [] {
      assert p + rel == p;
    } else {
      var child := p + [rel[0]];
      var t := Trace(child, rel[1..]);
      Along(p, rel, q);
      TraceCount(child, rel[1..], q);
      forall e: Event
        ensures multiset(Trace(p, rel))[e]
                == multiset([Entered(child)])[e] + multiset(t)[e] + multiset([Left(child)])[e]
      {
        CountConcat([Entered(child)] + t, [Left(child)], e);
        CountConcat([Entered(child)], t, e);
      }
    }
  }

  lemma {:induction false} HistoryCount(b: Body, k: nat, q: Path)
    requires k <= ForestCount(b) && q != []
    ensures multiset(History(b, k))[Entered(q)] == PassesThrough(b, k, q)
    ensures multiset(History(b, k))[Left(q)] == PassesThrough(b, k, q)
    decreases k
  {
    hide ForestRun, ForestCount, Trace;
    if k > 0 {
      HistoryCount(b, k - 1, q);
      var path := ForestRun(b, k - 1).path;
      TraceCount([], path, q);
      assert [] + path == path;
      CountConcat(History(b, k - 1), Trace([], path), Entered(q));
      CountConcat(History(b, k - 1), Trace([], path), Left(q));
    }
  }

  lemma {:induction false} LeavesNotNested(b: Body, q: Path, r: Path)
    requires Distinct(b) && LeafAmong(b, q) && LeafAmong(b, r) && q <= r
    ensures q == r
    decreases b
  {
    assert q[0] == r[0];
    if q[0] == b.key {
      if LeafAmong(b.next, q) {
        LeafStartsWithKey(b.next, q);
      }
      if LeafAmong(b.next, r) {
        LeafStartsWithKey(b.next, r);
      }
      assert q[1..] <= r[1..];
      if b.inner.Section? {
        LeavesNotNested(b.inner, q[1..], r[1..]);
      }
      assert q == [q[0]] + q[1..] && r == [r[0]] + r[1..];
    } else {
      LeavesNotNested(b.next, q, r);
    }
  }

  lemma {:induction false} LeafPasses(b: Body, k: nat, q: Path)
    requires Distinct(b) && LeafAmong(b, q) && k <= ForestCount(b)
    ensures PassesThrough(b, k, q) == if exists j: nat | j < k :: RunsAt(b, q, j) then 1 else 0
    decreases k
  {
    if k > 0 {
      LeafPasses(b, k - 1, q);
      RunsAreLeaves(b, k - 1);
      var r := ForestRun(b, k - 1).path;
      if q <= r {
        LeavesNotNested(b, q, r);
        assert RunsAt(b, q, k - 1);
        forall j: nat | j < k - 1 ensures !RunsAt(b, q, j) {
          RunsDiffer(b, j, k - 1);
        }
      } else {
        assert !RunsAt(b, q, k - 1);
      }
    }
  }

  /** Over the whole loop a section is left as often as it is entered, throwing or not. */
  lemma EnteredIsLeft(b: Body, q: Path)
    requires Distinct(b) && q != []
    ensures var log := multiset(After(b, TotalRuns(b)).log);
            log[Entered(q)] == log[Left(q)]
  {
    RunsUntilCompleted(b);
    HistoryCount(b, ForestCount(b), q);
  }

  /** Over the whole loop a leaf section is entered and left exactly once, or hidden by an
      exception and never entered. */
  lemma {:induction false} LeafRunsOnce(b: Body, q: Path)
    requires Distinct(b) && LeafAmong(b, q)
    ensures var log := multiset(After(b, TotalRuns(b)).log);
            log[Entered(q)] == log[Left(q)] == if IsRun(b, q) then 1 else 0
  {
    RunsUntilCompleted(b);
    HistoryCount(b, ForestCount(b), q);
    LeafPasses(b, ForestCount(b), q);
    if j: nat :| RunsAt(b, q, j) {
      assert j < ForestCount(b);
    }
  }

  /** Without exceptions every leaf section is run exactly once. */
  lemma QuietLeafRunsOnce(b: Body, q: Path)
    requires Distinct(b) && NoThrow(b) && LeafAmong(b, q)
    ensures multiset(After(b, TotalRuns(b)).log)[Entered(q)] == 1
  {
    QuietBody(b);
    LosslessRuns(b, q);
    LeafRunsOnce(b, q);
  }

  /** An exception in the first of two nested sections keeps the second from ever running. */
  lemma {:induction false} HiddenSibling()
    ensures var b := Section("a", Section("b", Throw, Section("c", Done, Done)), Done);
            && Distinct(b) && LeafAmong(b, ["a", "c"])
            && multiset(After(b, TotalRuns(b)).log)[Entered(["a", "c"])] == 0
  {
    var inner := Section("b", Throw, Section("c", Done, Done));
    var b := Section("a", inner, Done);
    assert LeafAmong(inner.next, ["c"]);
    assert ["a", "c"][1..] == ["c"];
    forall k: nat ensures !RunsAt(b, ["a", "c"], k) {
      if k < ForestCount(b) {
        assert Interrupted(inner.inner) && RunCount(inner) == 1 && k == 0;
      }
    }
    LeafRunsOnce(b, ["a", "c"]);
  }

  // ---------- the states between two passes ----------

  /** Some pass from number `k` on goes through the section at `rel`. */
  ghost predicate StillRuns(b: Body, k: nat, rel: Path) {
    exists j: nat :: k <= j < ForestCount(b) && rel <= ForestRun(b, j).path
  }

  ghost predicate StillRunsBelow(b: Body, k: nat, rel: Path) {
    exists j: nat :: k <= j < RunCount(b) && rel <= SectionRun(b, j).path
  }

  lemma StillRunsFirst(b: Body, k: nat, rel: Path)
    requires Distinct(b) && b.Section? && rel != [] && rel[0] == b.key
    ensures StillRuns(b, k, rel) <==> StillRunsBelow(b.inner, k, rel[1..])
  {
    forall j: nat | j < ForestCount(b)
      ensures rel <= ForestRun(b, j).path
              <==> j < RunCount(b.inner) && rel[1..] <= SectionRun(b.inner, j).path
    {
      if j < RunCount(b.inner) {
        var path := SectionRun(b.inner, j).path;
        assert ([b.key] + path)[1..] == path && rel == [b.key] + rel[1..];
      } else {
        NonEmpty(b.next, j - RunCount(b.inner));
      }
    }
  }

  /** A run of the siblings that begins with a later key is one of the later siblings. */
  lemma RunOfRest(b: Body, j: nat, rel: Path)
    requires Distinct(b) && b.Section? && rel != [] && rel[0] in Keys(b.next)
    requires j < ForestCount(b) && rel <= ForestRun(b, j).path
    ensures var n := RunCount(b.inner);
            n <= j && j - n < ForestCount(b.next) && rel <= ForestRun(b.next, j - n).path
  {
  }

  lemma RestOfRun(b: Body, j: nat)
    requires b.Section? && j < ForestCount(b.next)
    ensures j + RunCount(b.inner) < ForestCount(b)
    ensures ForestRun(b, j + RunCount(b.inner)) == ForestRun(b.next, j)
  {
  }

  lemma StillRunsRest(b: Body, k: nat, rel: Path)
    requires Distinct(b) && b.Section? && rel != [] && rel[0] in Keys(b.next)
    ensures StillRuns(b, k, rel) <==> StillRuns(b.next, k - Min(k, RunCount(b.inner)), rel)
  {
    hide ForestRun, ForestCount, RunCount, Distinct, Keys;
    var n := RunCount(b.inner);
    var m := k - Min(k, n);
    if j: nat :| k <= j < ForestCount(b) && rel <= ForestRun(b, j).path {
      RunOfRest(b, j, rel);
      assert m <= j - n;
    }
    if j: nat :| m <= j < ForestCount(b.next) && rel <= ForestRun(b.next, j).path {
      RestOfRun(b, j);
      assert k <= j + n;
    }
  }

  lemma StillRunsNested(b: Body, k: nat, rel: Path)
    requires Distinct(b) && b.Section? && rel != [] && rel[0] in Keys(b)
    requires Interrupted(b.inner) ==> rel[0] == b.key
    ensures StillRunsBelow(b, k, rel) <==> StillRuns(b, k, rel)
  {
    forall j: nat | j < RunCount(b) ensures SectionRun(b, j).path == ForestRun(b, j).path {
      NestedRun(b, j);
    }
    if j: nat :| k <= j < ForestCount(b) && rel <= ForestRun(b, j).path {
      if Interrupted(b.inner) && j >= RunCount(b.inner) {
        NonEmpty(b.next, j - RunCount(b.inner));
      }
      assert j < RunCount(b) && rel <= SectionRun(b, j).path;
    }
    if j: nat :| k <= j < RunCount(b) && rel <= SectionRun(b, j).path {
      NestedRun(b, j);
    }
  }

  lemma {:induction false} CompletedIff(s: States, p: Path, b: Body, k: nat, rel: Path)
    requires Distinct(b) && ForestReady(s, p, b, k)
    requires p + rel in s && rel != [] && rel[0] in Keys(b)
    ensures s[p + rel] == Completed <==> !StillRuns(b, k, rel)
    decreases b, 0
  {
    hide StillRuns, StillRunsBelow, SectionAt;
    var n := Min(k, RunCount(b.inner));
    if rel[0] == b.key {
      StillRunsFirst(b, k, rel);
      PathStep(p, b.key, rel[1..]);
      assert [b.key] + rel[1..] == rel;
      SectionCompletedIff(s, p + [b.key], b.inner, n, rel[1..]);
      NoneLeft(b.inner, k, rel[1..]);
    } else {
      StillRunsRest(b, k, rel);
      CompletedIff(s, p, b.next, k - n, rel);
    }
  }

  lemma NoneLeft(b: Body, k: nat, rel: Path)
    ensures StillRunsBelow(b, k, rel) == StillRunsBelow(b, Min(k, RunCount(b)), rel)
  {
  }

  lemma NoneStillRuns(b: Body, k: nat, rel: Path)
    ensures StillRuns(b, k, rel) == StillRuns(b, Min(k, ForestCount(b)), rel)
  {
  }

  /** As above for the section at `p` itself and everything below it. */
  lemma {:induction false} SectionCompletedIff(s: States, p: Path, b: Body, k: nat, rel: Path)
    requires Distinct(b) && SectionReady(s, p, b, k) && k <= RunCount(b)
    requires p + rel in s
    ensures s[p + rel] == Completed <==> !StillRunsBelow(b, k, rel)
    decreases b, 2
  {
    if rel == [] {
      assert p + rel == p;
      if k < RunCount(b) {
        assert rel <= SectionRun(b, k).path;
      }
    } else {
      assert p < p + rel && (p + rel)[|p|] == rel[0];
      NestedCompletedIff(s, p, b, k, rel);
    }
  }

  lemma {:induction false} NestedCompletedIff(s: States, p: Path, b: Body, k: nat, rel: Path)
    requires Distinct(b) && 0 < k <= RunCount(b) && ChildrenAt(s, p, b, k)
    requires p + rel in s && rel != []
    ensures s[p + rel] == Completed <==> !StillRunsBelow(b, k, rel)
    decreases b, 1
  {
    hide StillRuns, StillRunsBelow, SectionAt, ForestRun, SectionRun;
    assert p < p + rel && (p + rel)[|p|] == rel[0];
    StillRunsNested(b, k, rel);
    if Interrupted(b.inner) {
      UnknownReady(s, p, b.next);
    } else {
      AtIsReady(s, p, b, k);
    }
    CompletedIff(s, p, b, k, rel);
  }

  /** Between two passes a known section is completed exactly when no later pass runs it. */
  lemma CompletedIffNotRunAgain(b: Body, i: nat, q: Path)
    requires Distinct(b) && i <= TotalRuns(b)
    requires q in After(b, i).states && q != []
    ensures After(b, i).states[q] == Completed <==> !StillRuns(b, i, q)
  {
    hide ForestReady, ForestRun, ForestCount, Keys, RootState, TotalRuns, History, StillRuns;
    Passes(b, i);
    var t, k := After(b, i), Min(i, ForestCount(b));
    assert Ran(t, b, k, RootState(b, i));
    assert [] + q == q;
    CompletedIff(t.states, [], b, k, q);
    NoneStillRuns(b, i, q);
  }

  /** Some of the first `i` passes ends in the leaf section at `path`. */
  ghost predicate HasRun(b: Body, i: nat, path: Path) {
    exists j: nat :: j < i && RunsAt(b, path, j)
  }

  /** Without exceptions a known section is completed between two passes exactly when every leaf section
      at it or below it has run. */
  lemma CompletedIffLeavesHaveRun(b: Body, i: nat, q: Path)
    requires Distinct(b) && NoThrow(b) && i <= TotalRuns(b)
    requires q in After(b, i).states && q != []
    ensures After(b, i).states[q] == Completed
            <==> forall path | LeafAmong(b, path) && q <= path :: HasRun(b, i, path)
  {
    hide After, LeafAmong, ForestCount, TotalRuns, Distinct, NoThrow, Lossless;
    CompletedIffNotRunAgain(b, i, q);
    QuietBody(b);
    if StillRuns(b, i, q) {
      var j: nat :| i <= j < ForestCount(b) && q <= ForestRun(b, j).path;
      var path := ForestRun(b, j).path;
      RunsAreLeaves(b, j);
      forall m: nat | m < i ensures !RunsAt(b, path, m) {
        if m < ForestCount(b) {
          RunsDiffer(b, m, j);
        }
      }
      assert !HasRun(b, i, path);
    } else {
      forall path | LeafAmong(b, path) && q <= path ensures HasRun(b, i, path) {
        LosslessRuns(b, path);
        var j: nat :| RunsAt(b, path, j);
        assert j < i;
      }
    }
  }
}
