/** Which sections are run: every leaf exactly once, except those a thrown exception hides. */
module SectionResults {
  import opened TestBodies

  /** `path` leads from the siblings of `b` to a section without sections of its own. */
  predicate LeafAmong(b: Body, path: Path)
    decreases b, 0
  {
    && b.Section?
    && path != []
    && ((path[0] == b.key && LeafBelow(b.inner, path[1..])) || LeafAmong(b.next, path))
  }

  predicate LeafBelow(b: Body, path: Path)
    decreases b, 1
  {
    if path == [] then !b.Section? else LeafAmong(b, path)
  }

  function LeafCount(b: Body): nat
    decreases b, 0
  {
    if b.Section? then (if b.inner.Section? then LeafCount(b.inner) else 1) + LeafCount(b.next) else 0
  }

  ghost predicate RunsAt(b: Body, path: Path, k: nat) {
    k < ForestCount(b) && ForestRun(b, k).path == path
  }

  ghost predicate IsRun(b: Body, path: Path) {
    exists k: nat :: RunsAt(b, path, k)
  }

  /** No nested section has later siblings hidden behind a first section that is cut short.
      The sections of the test case itself are never hidden. */
  predicate Lossless(b: Body)
    decreases b, 0
  {
    b.Section? ==> LosslessSection(b.inner) && Lossless(b.next)
  }

  predicate LosslessSection(b: Body)
    decreases b, 1
  {
    (b.Section? && b.next.Section? ==> !Interrupted(b.inner)) && Lossless(b)
  }

  // ---------- every pass ends in a leaf, and no leaf is run twice ----------

  lemma {:induction false} RunsAreLeaves(b: Body, k: nat)
    requires k < ForestCount(b)
    ensures LeafAmong(b, ForestRun(b, k).path)
    decreases b
  {
    if k < RunCount(b.inner) {
      var path := SectionRun(b.inner, k).path;
      assert ([b.key] + path)[1..] == path;
      if b.inner.Section? {
        NestedRun(b.inner, k);
        RunsAreLeaves(b.inner, k);
      }
    } else {
      RunsAreLeaves(b.next, k - RunCount(b.inner));
    }
  }

  lemma {:induction false} LeafStartsWithKey(b: Body, path: Path)
    requires LeafAmong(b, path)
    ensures path[0] in Keys(b)
    decreases b
  {
    if LeafAmong(b.next, path) {
      LeafStartsWithKey(b.next, path);
    }
  }

  lemma {:induction false} RunsDiffer(b: Body, j: nat, k: nat)
    requires Distinct(b) && j < k < ForestCount(b)
    ensures ForestRun(b, j).path != ForestRun(b, k).path
    decreases b
  {
    var n := RunCount(b.inner);
    if k < n {
      NestedRun(b.inner, j);
      NestedRun(b.inner, k);
      RunsDiffer(b.inner, j, k);
      var pj, pk := SectionRun(b.inner, j).path, SectionRun(b.inner, k).path;
      assert ([b.key] + pj)[1..] == pj && ([b.key] + pk)[1..] == pk;
    } else if j < n {
      NonEmpty(b.next, k - n);
    } else {
      RunsDiffer(b.next, j - n, k - n);
    }
  }

  // ---------- which leaves are run ----------

  lemma RunOfFirst(b: Body, path: Path, k: nat)
    requires b.Section? && k < RunCount(b.inner) && SectionRun(b.inner, k).path == path
    ensures RunsAt(b, [b.key] + path, k)
  {
  }

  /** In a lossless body every leaf is run. */
  lemma {:induction false} LosslessRuns(b: Body, path: Path)
    requires Lossless(b) && LeafAmong(b, path)
    ensures IsRun(b, path)
    decreases b, 0
  {
    if path[0] == b.key && LeafBelow(b.inner, path[1..]) {
      var k := LosslessSectionRuns(b.inner, path[1..]);
      RunOfFirst(b, path[1..], k);
      assert [b.key] + path[1..] == path;
      assert RunsAt(b, path, k);
    } else {
      LosslessRuns(b.next, path);
      var k: nat :| RunsAt(b.next, path, k);
      assert RunsAt(b, path, k + RunCount(b.inner));
    }
  }

  lemma {:induction false} LosslessSectionRuns(b: Body, path: Path) returns (k: nat)
    requires LosslessSection(b) && LeafBelow(b, path)
    ensures k < RunCount(b) && SectionRun(b, k).path == path
    decreases b, 1
  {
    if !b.Section? {
      k := 0;
    } else {
      LosslessRuns(b, path);
      k :| RunsAt(b, path, k);
      assert Interrupted(b.inner) ==> ForestCount(b) == RunCount(b.inner) + ForestCount(b.next);
      NestedRun(b, k);
    }
  }

  /** In any other body some leaf is never run. */
  lemma {:induction false} LossyHides(b: Body) returns (path: Path)
    requires Distinct(b) && !Lossless(b)
    ensures LeafAmong(b, path) && !IsRun(b, path)
    decreases b, 0
  {
    if !LosslessSection(b.inner) {
      var rest := LossySectionHides(b.inner);
      path := [b.key] + rest;
      assert path[1..] == rest;
      forall k: nat | k < ForestCount(b) ensures !RunsAt(b, path, k) {
        if k < RunCount(b.inner) {
          var r := SectionRun(b.inner, k).path;
          assert ([b.key] + r)[1..] == r;
          assert !RunsInside(b.inner, rest, k);
        } else {
          NonEmpty(b.next, k - RunCount(b.inner));
        }
      }
    } else {
      path := LossyHides(b.next);
      LeafStartsWithKey(b.next, path);
      forall k: nat | k < ForestCount(b) ensures !RunsAt(b, path, k) {
        if k >= RunCount(b.inner) {
          assert !RunsAt(b.next, path, k - RunCount(b.inner));
        }
      }
    }
  }

  ghost predicate RunsInside(b: Body, path: Path, k: nat) {
    k < RunCount(b) && SectionRun(b, k).path == path
  }

  lemma {:induction false} LossySectionHides(b: Body) returns (path: Path)
    requires Distinct(b) && !LosslessSection(b)
    ensures LeafBelow(b, path)
    ensures forall k: nat :: !RunsInside(b, path, k)
    decreases b, 1
  {
    if Interrupted(b.inner) && b.next.Section? {
      path := SomeLeaf(b.next);
      LeafStartsWithKey(b.next, path);
      forall k: nat | k < RunCount(b) ensures !RunsInside(b, path, k) {
        NestedRun(b, k);
      }
    } else {
      path := LossyHides(b);
      forall k: nat | k < RunCount(b) ensures !RunsInside(b, path, k) {
        NestedRun(b, k);
        assert !RunsAt(b, path, k);
      }
    }
  }

  lemma {:induction false} SomeLeaf(b: Body) returns (path: Path)
    requires b.Section?
    ensures LeafAmong(b, path)
    decreases b
  {
    var rest: Path := [];
    if b.inner.Section? {
      rest := SomeLeaf(b.inner);
    }
    path := [b.key] + rest;
    assert path[1..] == rest;
  }

  /** Every leaf section is run if and only if no exception hides one. */
  lemma EveryLeafRunsIff(b: Body)
    requires Distinct(b)
    ensures (forall path | LeafAmong(b, path) :: IsRun(b, path)) <==> Lossless(b)
  {
    if Lossless(b) {
      forall path | LeafAmong(b, path) ensures IsRun(b, path) {
        LosslessRuns(b, path);
      }
    } else {
      var path := LossyHides(b);
    }
  }

  // ---------- counting passes ----------

  lemma {:induction false} AtMostOnePassPerSection(b: Body)
    ensures ForestCount(b) <= SectionCount(b)
    ensures b.Section? ==> RunCount(b) <= SectionCount(b)
    decreases b
  {
    if b.Section? {
      AtMostOnePassPerSection(b.inner);
      AtMostOnePassPerSection(b.next);
    }
  }

  lemma {:induction false} QuietBody(b: Body)
    requires NoThrow(b)
    ensures !Interrupted(b) && !Ends(b) && Lossless(b)
    ensures ForestCount(b) == LeafCount(b)
    decreases b
  {
    if b.Section? {
      QuietBody(b.inner);
      QuietBody(b.next);
    }
  }

  lemma {:induction false} QuietRun(b: Body, k: nat)
    requires NoThrow(b) && k < ForestCount(b)
    ensures !ForestRun(b, k).threw
    decreases b
  {
    if k < RunCount(b.inner) {
      if b.inner.Section? {
        QuietBody(b.inner);
        NestedRun(b.inner, k);
        QuietRun(b.inner, k);
      }
    } else {
      QuietRun(b.next, k - RunCount(b.inner));
    }
  }

  /** A body that never throws is run once per leaf section, and once if it has none. */
  lemma OnePassPerLeaf(b: Body)
    requires NoThrow(b)
    ensures TotalRuns(b) == if b.Section? then LeafCount(b) else 1
    ensures Lossless(b)
  {
    QuietBody(b);
    if b.Section? {
      QuietRun(b, ForestCount(b) - 1);
    }
  }

  lemma TotalRunsBound(b: Body)
    ensures TotalRuns(b) <= SectionCount(b) + 1
  {
    AtMostOnePassPerSection(b);
  }
}
