/** The body of a test case as the section tracker sees it, and which sections a
    body gets executed in which run.

    A body is a list of sections in program order that either falls off its end
    (`Done`) or lets an exception escape at a fixed point (`Throw`). */
module TestBodies {
  type Key = string
  type Path = seq<Key>

  datatype Body =
    | Done
    | Throw
    | Section(key: Key, inner: Body, next: Body)

  /** One pass through a body: the chain of sections entered, outermost first, and
      whether an exception left that chain. */
  datatype Run = Run(path: Path, threw: bool)

  function Keys(b: Body): set<Key> {
    if b.Section? then {b.key} + Keys(b.next) else {}
  }

  /** Sibling sections carry different keys (name and source line), at every level. */
  predicate Distinct(b: Body) {
    b.Section? ==> b.key !in Keys(b.next) && Distinct(b.inner) && Distinct(b.next)
  }

  predicate NoThrow(b: Body) {
    match b
    case Done => true
    case Throw => false
    case Section(_, inner, next) => NoThrow(inner) && NoThrow(next)
  }

  /** The statement after the last section throws. */
  predicate Ends(b: Body) {
    match b
    case Done => false
    case Throw => true
    case Section(_, _, next) => Ends(next)
  }

  /** Some section on the leftmost chain throws, so the first pass through `b` is cut short. */
  predicate Interrupted(b: Body) {
    Ends(b) || (b.Section? && Interrupted(b.inner))
  }

  function SectionCount(b: Body): nat {
    if b.Section? then 1 + SectionCount(b.inner) + SectionCount(b.next) else 0
  }

  /** How often a nested section with body `b` is run. When its first pass is cut short in
      its first child, the other children are never discovered and never run. */
  function RunCount(b: Body): (n: nat)
    ensures n > 0
    decreases b, 1
  {
    if !b.Section? then 1
    else if Interrupted(b.inner) then RunCount(b.inner) else ForestCount(b)
  }

  /** How often the sibling sections of `b` are run in all. */
  function ForestCount(b: Body): nat
    decreases b, 0
  {
    if b.Section? then RunCount(b.inner) + ForestCount(b.next) else 0
  }

  /** Pass `k` over the sibling sections of `b`; `threw` says whether it was cut short
      inside a sibling. */
  function ForestRun(b: Body, k: nat): Run
    requires k < ForestCount(b)
    decreases b, 0
  {
    if k < RunCount(b.inner) then
      var r := SectionRun(b.inner, k);
      Run([b.key] + r.path, r.threw)
    else ForestRun(b.next, k - RunCount(b.inner))
  }

  /** Pass `k` of a section with body `b`, as a path below the section. */
  function SectionRun(b: Body, k: nat): Run
    requires k < RunCount(b)
    decreases b, 1
  {
    if !b.Section? then Run([], b.Throw?)
    else
      var r := ForestRun(b, k);
      Run(r.path, r.threw || Ends(b))
  }

  /** How often a whole test body is run. The pass after a cut-short last section enters
      nothing; a body without sections is run once. */
  function TotalRuns(b: Body): (n: nat)
    ensures n > 0
  {
    var n := ForestCount(b);
    if n == 0 || ForestRun(b, n - 1).threw then n + 1 else n
  }

  lemma {:induction false} NonEmpty(b: Body, k: nat)
    requires k < ForestCount(b)
    ensures ForestRun(b, k).path != [] && ForestRun(b, k).path[0] in Keys(b)
    decreases b
  {
    if k >= RunCount(b.inner) {
      NonEmpty(b.next, k - RunCount(b.inner));
    }
  }

  /** All passes of an interrupted section are cut short; otherwise the first is not. */
  lemma {:induction false} InterruptedRuns(b: Body, k: nat)
    requires k < RunCount(b)
    ensures Interrupted(b) ==> SectionRun(b, k).threw
    ensures !Interrupted(b) && k == 0 ==> !SectionRun(b, k).threw
    decreases b
  {
    if b.Section? && k < RunCount(b.inner) {
      InterruptedRuns(b.inner, k);
    }
  }

  /** A pass of a section with children is the pass with the same number over the children. */
  lemma NestedRun(b: Body, k: nat)
    requires b.Section? && k < RunCount(b)
    ensures k < ForestCount(b) && ForestRun(b, k).path != []
    ensures SectionRun(b, k) == Run(ForestRun(b, k).path, ForestRun(b, k).threw || Ends(b))
    ensures Interrupted(b.inner) ==> ForestRun(b, k).path[0] == b.key && ForestRun(b, k).threw
    ensures !Interrupted(b.inner) && k == 0 ==> !ForestRun(b, k).threw
  {
    NonEmpty(b, k);
    if k < RunCount(b.inner) {
      InterruptedRuns(b.inner, k);
    }
  }
}
