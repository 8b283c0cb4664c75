/** Generator indices: a mixed-radix counter advanced between passes of a test body. */
module Generators {
  import opened Basics

  /** How many indices a generator of that size goes through: a counter that never meets the size zero
      before it is incremented goes round once. */
  function Radix(size: Size): (r: nat)
    ensures r > 0
  {
    if size == 0 then SIZE_MODULUS else size
  }

  // ---------- the counter on values ----------

  predicate Digits(sizes: seq<nat>, index: seq<nat>) {
    |index| == |sizes| && forall j | 0 <= j < |sizes| :: index[j] < sizes[j]
  }

  function Product(sizes: seq<nat>): nat {
    if sizes == [] then 1 else sizes[0] * Product(sizes[1..])
  }

  /** The number a tuple of indices stands for, least significant digit first. */
  function Value(sizes: seq<nat>, index: seq<nat>): nat
    requires |index| == |sizes|
  {
    if sizes == [] then 0 else index[0] + sizes[0] * Value(sizes[1..], index[1..])
  }

  /** The tuple of indices that stands for `n`. */
  function Tuple(sizes: seq<nat>, n: nat): (index: seq<nat>)
    requires forall j | 0 <= j < |sizes| :: sizes[j] > 0
    ensures |index| == |sizes|
    decreases |sizes|
  {
    if sizes == [] then [] else [n % sizes[0]] + Tuple(sizes[1..], n / sizes[0])
  }

  function Zeros(n: nat): (z: seq<nat>)
    ensures |z| == n && forall j | 0 <= j < n :: z[j] == 0
  {
    seq(n, _ => 0)
  }

  /** The tuple after `moveNext`, and whether it did not wrap. */
  function Next(sizes: seq<nat>, index: seq<nat>): (seq<nat>, bool)
    requires |index| == |sizes|
  {
    if sizes == [] then ([], false)
    else if index[0] + 1 != sizes[0] then ([index[0] + 1] + index[1..], true)
    else var (rest, more) := Next(sizes[1..], index[1..]); ([0] + rest, more)
  }

  lemma {:induction false} MulStep(a: nat, b: nat, c: nat, d: nat)
    requires a < b && c < d
    ensures a + b * c < b * d
  {
    assert b * c + b == b * (c + 1) <= b * d;
  }

  lemma DivMod(n: nat, b: nat, p: nat)
    requires b > 0 && n < b * p
    ensures n / b < p && n % b + b * (n / b) == n
  {
    var q := n / b;
    assert b * q + n % b == n;
    assert q >= p ==> b * q >= b * p;
  }

  lemma {:induction false} CarryStep(i: nat, b: nat, v: nat, p: nat)
    requires i < b && v < p
    ensures i + 1 < b ==> i + 1 + b * v < b * p
    ensures i + 1 == b ==> b * (v + 1) == i + b * v + 1
    ensures i + 1 == b ==> (v + 1 < p <==> i + b * v + 1 < b * p)
  {
    MulStep(i, b, v, p);
    assert b * (v + 1) == b * v + b;
    if v + 1 < p {
      MulStep(0, b, v + 1, p);
    }
    if i + 1 < b {
      MulStep(i + 1, b, v, p);
    }
  }

  lemma {:induction false} DivStep(a: nat, b: nat, c: nat)
    requires a < b
    ensures (a + b * c) % b == a && (a + b * c) / b == c
  {
    var q, r := (a + b * c) / b, (a + b * c) % b;
    assert b * q + r == a + b * c;
    assert q < c ==> b * (q + 1) <= b * c;
    assert q > c ==> b * (c + 1) <= b * q;
  }

  lemma {:induction false} ValueBound(sizes: seq<nat>, index: seq<nat>)
    requires Digits(sizes, index)
    ensures Value(sizes, index) < Product(sizes)
  {
    if sizes != [] {
      ValueBound(sizes[1..], index[1..]);
      MulStep(index[0], sizes[0], Value(sizes[1..], index[1..]), Product(sizes[1..]));
    }
  }

  /** Tuples and numbers below the product determine each other. */
  lemma {:induction false} TupleOfValue(sizes: seq<nat>, index: seq<nat>)
    requires Digits(sizes, index)
    ensures Tuple(sizes, Value(sizes, index)) == index
  {
    if sizes != [] {
      TupleOfValue(sizes[1..], index[1..]);
      DivStep(index[0], sizes[0], Value(sizes[1..], index[1..]));
    }
  }

  lemma {:induction false} ValueOfTuple(sizes: seq<nat>, n: nat)
    requires forall j | 0 <= j < |sizes| :: sizes[j] > 0
    requires n < Product(sizes)
    ensures Digits(sizes, Tuple(sizes, n))
    ensures Value(sizes, Tuple(sizes, n)) == n
  {
    if sizes != [] {
      DivMod(n, sizes[0], Product(sizes[1..]));
      ValueOfTuple(sizes[1..], n / sizes[0]);
    }
  }

  /** `moveNext` counts: it adds one, or wraps to all zeros exactly at the largest value. */
  lemma {:induction false} NextCounts(sizes: seq<nat>, index: seq<nat>)
    requires Digits(sizes, index)
    ensures var (next, more) := Next(sizes, index);
            && Digits(sizes, next)
            && (more ==> Value(sizes, next) == Value(sizes, index) + 1)
            && (more <==> Value(sizes, index) + 1 < Product(sizes))
            && (!more ==> next == Zeros(|sizes|))
  {
    if sizes != [] {
      var v, p := Value(sizes[1..], index[1..]), Product(sizes[1..]);
      var (rest, more) := Next(sizes[1..], index[1..]);
      NextCounts(sizes[1..], index[1..]);
      ValueBound(sizes[1..], index[1..]);
      CarryStep(index[0], sizes[0], v, p);
      assert ([index[0] + 1] + index[1..])[1..] == index[1..];
      assert ([0] + rest)[1..] == rest;
    }
  }

  /** The tuple after `n` calls of `moveNext` from all zeros. */
  function Advanced(sizes: seq<nat>, n: nat): (index: seq<nat>)
    ensures |index| == |sizes|
  {
    if n == 0 then Zeros(|sizes|) else Step(sizes, Advanced(sizes, n - 1))
  }

  function Step(sizes: seq<nat>, index: seq<nat>): (next: seq<nat>)
    requires |index| == |sizes|
    ensures |next| == |sizes|
  {
    NextLength(sizes, index);
    Next(sizes, index).0
  }

  lemma {:induction false} NextLength(sizes: seq<nat>, index: seq<nat>)
    requires |index| == |sizes|
    ensures |Next(sizes, index).0| == |sizes|
  {
    if sizes != [] {
      NextLength(sizes[1..], index[1..]);
    }
  }

  lemma {:induction false} ZeroValue(sizes: seq<nat>)
    ensures Value(sizes, Zeros(|sizes|)) == 0
  {
    if sizes != [] {
      ZeroValue(sizes[1..]);
      assert Zeros(|sizes|)[1..] == Zeros(|sizes[1..]|);
    }
  }

  /** From all zeros, `n` calls reach the tuple of `n`; call number `Product` is the first to
      return false. Every tuple is reached once. */
  lemma {:induction false} AdvancedIsTuple(sizes: seq<nat>, n: nat)
    requires forall j | 0 <= j < |sizes| :: sizes[j] > 0
    requires n < Product(sizes)
    ensures Digits(sizes, Advanced(sizes, n)) && Value(sizes, Advanced(sizes, n)) == n
    ensures Advanced(sizes, n) == Tuple(sizes, n)
    ensures Next(sizes, Advanced(sizes, n)).1 <==> n + 1 < Product(sizes)
  {
    if n == 0 {
      ZeroValue(sizes);
    } else {
      AdvancedIsTuple(sizes, n - 1);
      NextCounts(sizes, Advanced(sizes, n - 1));
    }
    TupleOfValue(sizes, Advanced(sizes, n));
    NextCounts(sizes, Advanced(sizes, n));
  }

  lemma EveryTupleOnce(sizes: seq<nat>, index: seq<nat>)
    requires Digits(sizes, index)
    ensures Value(sizes, index) < Product(sizes)
    ensures forall n | 0 <= n < Product(sizes) :: Advanced(sizes, n) == index <==> n == Value(sizes, index)
  {
    ValueBound(sizes, index);
    forall n | 0 <= n < Product(sizes)
      ensures Advanced(sizes, n) == index <==> n == Value(sizes, index)
    {
      AdvancedIsTuple(sizes, n);
      TupleOfValue(sizes, index);
    }
  }

  lemma {:induction false} ProductPositive(sizes: seq<nat>)
    requires forall j | 0 <= j < |sizes| :: sizes[j] > 0
    ensures Product(sizes) > 0
  {
    if sizes != [] {
      ProductPositive(sizes[1..]);
      MulStep(0, sizes[0], 0, Product(sizes[1..]));
    }
  }

  lemma {:induction false} ProductAtLeast(sizes: seq<nat>, j: nat)
    requires j < |sizes| && forall i | 0 <= i < |sizes| :: sizes[i] > 0
    ensures Product(sizes) >= sizes[j]
    decreases j
  {
    if j == 0 {
      ProductPositive(sizes[1..]);
      MulAtLeast(sizes[0], Product(sizes[1..]));
    } else {
      ProductAtLeast(sizes[1..], j - 1);
      MulAtLeast(Product(sizes[1..]), sizes[0]);
    }
  }

  lemma MulAtLeast(a: nat, b: nat)
    requires b > 0
    ensures a * b >= a && b * a >= a
  {
    assert a * (b - 1) >= 0;
  }

  // ---------- the registry of a test case ----------

  class GeneratorInfo {
    const size: Size
    var currentIndex: nat

    constructor (size: Size)
      ensures this.size == size && currentIndex == 0
    {
      this.size := size;
      currentIndex := 0;
    }

    method MoveNext() returns (more: bool)
      requires currentIndex < Radix(size)
      modifies this
      ensures more <==> old(currentIndex) + 1 != Radix(size)
      ensures currentIndex == if more then old(currentIndex) + 1 else 0
    {
      currentIndex := (currentIndex + 1) % SIZE_MODULUS;
      if currentIndex == size {
        currentIndex := 0;
        return false;
      }
      return true;
    }
  }

  /** A generator as a test body mentions it: where it stands and how many values it has. */
  datatype Source = Source(fileInfo: string, size: Size)

  ghost predicate IsKnown(known: seq<Source>, fileInfo: string) {
    exists j :: 0 <= j < |known| && known[j].fileInfo == fileInfo
  }

  ghost function Position(known: seq<Source>, fileInfo: string): (j: nat)
    requires IsKnown(known, fileInfo)
    ensures j < |known| && known[j].fileInfo == fileInfo
  {
    var j :| 0 <= j < |known| && known[j].fileInfo == fileInfo; j
  }

  ghost predicate Unique(known: seq<Source>) {
    forall i, j | 0 <= i < |known| && 0 <= j < |known| && known[i].fileInfo == known[j].fileInfo :: i == j
  }

  /** The sources known after a body has mentioned `uses`: a source counts when it is first mentioned. */
  ghost function Registered(known: seq<Source>, uses: seq<Source>): seq<Source>
    decreases |uses|
  {
    if uses == [] then known
    else Registered(if IsKnown(known, uses[0].fileInfo) then known else known + [uses[0]], uses[1..])
  }

  function Radices(known: seq<Source>): (sizes: seq<nat>)
    ensures |sizes| == |known| && forall j | 0 <= j < |known| :: sizes[j] == Radix(known[j].size) > 0
  {
    seq(|known|, j requires 0 <= j < |known| => Radix(known[j].size))
  }

  /** A generator without values goes through all indices of `size_t` before it wraps, and multiplies the
      number of passes by that much. */
  lemma EmptyGeneratorTakesAll(known: seq<Source>, j: nat)
    requires j < |known| && known[j].size == 0
    ensures Product(Radices(known)) >= SIZE_MODULUS
  {
    ProductAtLeast(Radices(known), j);
  }

  lemma {:induction false} RegisteredExtends(known: seq<Source>, uses: seq<Source>)
    requires Unique(known)
    ensures known <= Registered(known, uses) && Unique(Registered(known, uses))
    ensures forall r | r in uses :: IsKnown(Registered(known, uses), r.fileInfo)
    decreases |uses|
  {
    if uses != [] {
      var k := if IsKnown(known, uses[0].fileInfo) then known else known + [uses[0]];
      assert IsKnown(k, uses[0].fileInfo) by {
        if k != known {
          assert k[|known|] == uses[0];
        }
      }
      RegisteredExtends(k, uses[1..]);
      var j :| 0 <= j < |k| && k[j].fileInfo == uses[0].fileInfo;
      assert Registered(known, uses)[j] == k[j];
      forall r | r in uses ensures IsKnown(Registered(known, uses), r.fileInfo) {
        if r != uses[0] {
          assert r in uses[1..];
        }
      }
    }
  }

  /** A source is registered as it was when it was first mentioned. */
  lemma {:induction false} RegisteredIsFirst(known: seq<Source>, uses: seq<Source>, name: string)
    requires !IsKnown(known, name) && Unique(known)
    ensures forall j | 0 <= j < |Registered(known, uses)| && Registered(known, uses)[j].fileInfo == name ::
              exists i: nat :: FirstMention(uses, name, i) && uses[i] == Registered(known, uses)[j]
    decreases |uses|
  {
    if uses != [] {
      var u, more := uses[0], uses[1..];
      var k := if IsKnown(known, u.fileInfo) then known else known + [u];
      if u.fileInfo == name {
        assert FirstMention(uses, name, 0);
        assert k[|known|] == u;
        assert Unique(k);
        RegisteredExtends(k, more);
        var all := Registered(known, uses);
        assert all[|known|] == u;
      } else {
        KnownNext(known, u, name);
        RegisteredIsFirst(k, more, name);
        forall j | 0 <= j < |Registered(known, uses)| && Registered(known, uses)[j].fileInfo == name
          ensures exists i: nat :: FirstMention(uses, name, i) && uses[i] == Registered(known, uses)[j]
        {
          var i: nat :| FirstMention(more, name, i) && more[i] == Registered(k, more)[j];
          assert forall l | 0 < l <= i :: uses[l] == more[l - 1];
          assert FirstMention(uses, name, i + 1) && uses[i + 1] == more[i];
        }
      }
    }
  }

  ghost predicate FirstMention(uses: seq<Source>, name: string, i: nat) {
    i < |uses| && uses[i].fileInfo == name && forall l | 0 <= l < i :: uses[l].fileInfo != name
  }

  lemma {:induction false} AllKnown(known: seq<Source>, uses: seq<Source>)
    requires forall r | r in uses :: IsKnown(known, r.fileInfo)
    ensures Registered(known, uses) == known
    decreases |uses|
  {
    if uses != [] {
      assert uses[0] in uses;
      AllKnown(known, uses[1..]);
    }
  }

  /** `Next` resets the exhausted digits before the first digit `i` that is not, and adds one there. */
  lemma {:induction false} NextCarries(sizes: seq<nat>, index: seq<nat>, i: nat)
    requires |index| == |sizes| && i <= |sizes|
    requires forall j | 0 <= j < i :: index[j] + 1 == sizes[j]
    requires i < |sizes| ==> index[i] + 1 != sizes[i]
    ensures var (next, more) := Next(sizes, index);
            && (more <==> i < |sizes|)
            && |next| == |sizes|
            && forall j | 0 <= j < |sizes| :: next[j] == if j < i then 0 else if j == i then index[j] + 1 else index[j]
    decreases |sizes|
  {
    if i > 0 {
      NextCarries(sizes[1..], index[1..], i - 1);
    }
  }

  lemma CarriedIs(sizes: seq<nat>, index: seq<nat>, now: seq<nat>, i: nat)
    requires |now| == |index| == |sizes| && i <= |sizes|
    requires forall j | 0 <= j < i :: now[j] == 0 && index[j] + 1 == sizes[j]
    requires i < |sizes| ==> index[i] + 1 != sizes[i] && now[i] == index[i] + 1
    requires forall j | i < j < |sizes| :: now[j] == index[j]
    ensures Next(sizes, index) == (now, i < |sizes|)
  {
    NextCarries(sizes, index, i);
    assert now == Next(sizes, index).0;
  }

  lemma KnownNext(known: seq<Source>, u: Source, name: string)
    ensures IsKnown(known + [u], name) <==> IsKnown(known, name) || name == u.fileInfo
  {
    var more := known + [u];
    assert more[|known|] == u;
    if j :| 0 <= j < |known| && known[j].fileInfo == name {
      assert more[j].fileInfo == name;
    }
  }

  class GeneratorsForTest {
    var generatorsByName: map<string, GeneratorInfo>
    var generatorsInOrder: seq<GeneratorInfo>
    ghost var known: seq<Source>

    ghost predicate Valid()
      reads this
      ensures Valid() ==> |known| == |generatorsInOrder|
    {
      && |known| == |generatorsInOrder| && Unique(known)
      && (forall j | 0 <= j < |known| ::
            && known[j].fileInfo in generatorsByName
            && generatorsByName[known[j].fileInfo] == generatorsInOrder[j]
            && generatorsInOrder[j].size == known[j].size)
      && (forall name | name in generatorsByName :: IsKnown(known, name))
      && (forall i, j | 0 <= i < j < |known| :: generatorsInOrder[i] != generatorsInOrder[j])
    }

    ghost function Index(): (index: seq<nat>)
      reads this, generatorsInOrder
      ensures |index| == |generatorsInOrder|
    {
      seq(|generatorsInOrder|, j requires 0 <= j < |generatorsInOrder| reads this, generatorsInOrder =>
        generatorsInOrder[j].currentIndex)
    }

    constructor ()
      ensures Valid() && known == [] && generatorsInOrder == [] && Index() == []
    {
      generatorsByName := map[];
      generatorsInOrder := [];
      known := [];
    }

    /** The names known once another source is. */
    lemma NamesNext(u: Source)
      requires Valid()
      ensures forall name :: IsKnown(known + [u], name) <==> IsKnown(known, name) || name == u.fileInfo
    {
      hide Valid, IsKnown;
      forall name ensures IsKnown(known + [u], name) <==> IsKnown(known, name) || name == u.fileInfo {
        KnownNext(known, u, name);
      }
    }

    /** A generator mentioned for the first time goes to the end. */
    method Register(fileInfo: string, size: Size) returns (info: GeneratorInfo)
      requires Valid() && fileInfo !in generatorsByName
      modifies this
      ensures Valid() && generatorsInOrder == old(generatorsInOrder) + [info] && fresh(info)
      ensures !IsKnown(old(known), fileInfo) && known == old(known) + [Source(fileInfo, size)]
      ensures Index() == old(Index()) + Zeros(1)
      ensures IsKnown(known, fileInfo) && info == generatorsInOrder[Position(known, fileInfo)]
    {
      NamesNext(Source(fileInfo, size));
      info := new GeneratorInfo(size);
      generatorsByName := generatorsByName[fileInfo := info];
      generatorsInOrder := generatorsInOrder + [info];
      known := known + [Source(fileInfo, size)];
      assert known[|known| - 1].fileInfo == fileInfo;
    }

    method GetGeneratorInfo(fileInfo: string, size: Size) returns (info: GeneratorInfo)
      requires Valid()
      modifies this
      ensures Valid() && old(generatorsInOrder) <= generatorsInOrder
      ensures forall j | |old(generatorsInOrder)| <= j < |generatorsInOrder| :: fresh(generatorsInOrder[j])
      ensures known == Registered(old(known), [Source(fileInfo, size)])
      ensures Index() == old(Index()) + Zeros(|known| - |old(known)|)
      ensures IsKnown(known, fileInfo) && info == generatorsInOrder[Position(known, fileInfo)]
    {
      if fileInfo !in generatorsByName {
        info := Register(fileInfo, size);
      } else {
        info := generatorsByName[fileInfo];
        assert Index() == old(Index()) + Zeros(0);
      }
      RegisteredStep(old(known), [Source(fileInfo, size)]);
    }

    method MoveNext() returns (more: bool)
      requires Valid() && Digits(Radices(known), Index())
      modifies generatorsInOrder
      ensures Valid() && Digits(Radices(known), Index())
      ensures (Index(), more) == Next(Radices(known), old(Index()))
    {
      hide Next, Valid, Index, Digits, Radices;
      ghost var sizes, index := Radices(known), Index();
      NextCounts(sizes, index);
      var i := MoveUpTo(sizes, index);
      IndexAt();
      CarriedIs(sizes, index, Index(), i);
      more := i < |generatorsInOrder|;
    }

    /** The loop: the generators before `i` have wrapped, the one at `i`, if there is one, has not. */
    method MoveUpTo(ghost sizes: seq<nat>, ghost index: seq<nat>) returns (i: nat)
      requires Valid() && sizes == Radices(known) && index == Index() && Digits(sizes, index)
      modifies generatorsInOrder
      ensures Valid() && i <= |generatorsInOrder|
      ensures forall j | 0 <= j < i :: generatorsInOrder[j].currentIndex == 0 && index[j] + 1 == sizes[j]
      ensures i < |generatorsInOrder| ==>
                index[i] + 1 != sizes[i] && generatorsInOrder[i].currentIndex == index[i] + 1
      ensures forall j | i < j < |generatorsInOrder| :: generatorsInOrder[j].currentIndex == index[j]
    {
      assert forall i, j | 0 <= i < j < |generatorsInOrder| :: generatorsInOrder[i] != generatorsInOrder[j];
      hide Valid;
      i := 0;
      IndexAt();
      while i < |generatorsInOrder|
        invariant 0 <= i <= |generatorsInOrder| && Valid()
        invariant forall j | 0 <= j < i :: generatorsInOrder[j].currentIndex == 0 && index[j] + 1 == sizes[j]
        invariant forall j | i <= j < |generatorsInOrder| :: generatorsInOrder[j].currentIndex == index[j]
      {
        SizeAt(i);
        var moved := generatorsInOrder[i].MoveNext();
        if moved {
          return;
        }
        i := i + 1;
      }
    }

    lemma IndexAt()
      ensures forall j | 0 <= j < |generatorsInOrder| :: Index()[j] == generatorsInOrder[j].currentIndex
    {
    }

    lemma SizeAt(j: nat)
      requires Valid() && j < |generatorsInOrder|
      ensures Radices(known)[j] == Radix(generatorsInOrder[j].size)
    {
    }
  }

  // ---------- the loop over all combinations ----------

  /** What a pass reads at the generator tuple `index`. */
  ghost predicate Reads(known: seq<Source>, index: seq<nat>, uses: seq<Source>, values: seq<nat>)
    requires |index| == |known| && forall u | u in uses :: IsKnown(known, u.fileInfo)
  {
    && |values| == |uses|
    && forall j | 0 <= j < |uses| :: values[j] == index[Position(known, uses[j].fileInfo)]
  }

  lemma SamePosition(known: seq<Source>, more: seq<Source>, fileInfo: string)
    requires Unique(more) && known <= more && IsKnown(known, fileInfo)
    ensures IsKnown(more, fileInfo) && Position(more, fileInfo) == Position(known, fileInfo)
  {
    var j := Position(known, fileInfo);
    assert more[j].fileInfo == fileInfo;
  }

  lemma RegisteredStep(known: seq<Source>, uses: seq<Source>)
    ensures Registered(known, uses)
            == if uses == [] then known else Registered(Registered(known, [uses[0]]), uses[1..])
  {
    if uses != [] {
      assert [uses[0]][1..] == [];
    }
  }

  /** One pass of a body without sections that reads the generators `uses` in order. */
  method RunBody(generators: GeneratorsForTest, uses: seq<Source>) returns (values: seq<nat>)
    requires generators.Valid()
    modifies generators
    ensures generators.Valid() && old(generators.generatorsInOrder) <= generators.generatorsInOrder
    ensures forall j | |old(generators.generatorsInOrder)| <= j < |generators.generatorsInOrder| ::
              fresh(generators.generatorsInOrder[j])
    ensures generators.known == Registered(old(generators.known), uses)
    ensures old(generators.known) <= generators.known
    ensures forall u | u in uses :: IsKnown(generators.known, u.fileInfo)
    ensures generators.Index()
            == old(generators.Index()) + Zeros(|generators.known| - |old(generators.known)|)
    ensures Reads(generators.known, generators.Index(), uses, values)
    decreases |uses|
  {
    hide Registered, IsKnown, Next;
    RegisteredExtends(generators.known, uses);
    RegisteredStep(generators.known, uses);
    if uses == [] {
      return [];
    }
    var u := uses[0];
    RegisteredExtends(generators.known, [u]);
    var info := generators.GetGeneratorInfo(u.fileInfo, u.size);
    var value := info.currentIndex;
    ghost var known := generators.known;
    var rest := RunBody(generators, uses[1..]);
    SamePosition(known, generators.known, u.fileInfo);
    values := [value] + rest;
  }

  lemma TupleSteps(sizes: seq<nat>, n: nat)
    requires forall j | 0 <= j < |sizes| :: sizes[j] > 0
    requires n < Product(sizes)
    ensures Digits(sizes, Tuple(sizes, n)) && Tuple(sizes, 0) == Zeros(|sizes|)
    ensures Next(sizes, Tuple(sizes, n)).1 <==> n + 1 < Product(sizes)
    ensures n + 1 < Product(sizes) ==> Next(sizes, Tuple(sizes, n)).0 == Tuple(sizes, n + 1)
  {
    AdvancedIsTuple(sizes, 0);
    AdvancedIsTuple(sizes, n);
    if n + 1 < Product(sizes) {
      AdvancedIsTuple(sizes, n + 1);
    }
  }

  /** Pass `n` has read the tuple of `n`. */
  ghost predicate ReadsAt(known: seq<Source>, uses: seq<Source>, values: seq<nat>, n: nat)
    requires forall u | u in uses :: IsKnown(known, u.fileInfo)
  {
    Reads(known, Tuple(Radices(known), n), uses, values)
  }

  /** Each pass has read its own tuple, in counting order. */
  ghost predicate InOrder(known: seq<Source>, uses: seq<Source>, log: seq<seq<nat>>)
    requires forall u | u in uses :: IsKnown(known, u.fileInfo)
  {
    forall n | 0 <= n < |log| :: ReadsAt(known, uses, log[n], n)
  }

  lemma NoneRead(known: seq<Source>, uses: seq<Source>)
    requires forall u | u in uses :: IsKnown(known, u.fileInfo)
    ensures InOrder(known, uses, [])
  {
  }

  lemma InOrderNext(known: seq<Source>, uses: seq<Source>, log: seq<seq<nat>>, values: seq<nat>)
    requires forall u | u in uses :: IsKnown(known, u.fileInfo)
    requires InOrder(known, uses, log) && Reads(known, Tuple(Radices(known), |log|), uses, values)
    ensures InOrder(known, uses, log + [values])
  {
    hide Reads, Tuple, Radices, IsKnown;
    assert ReadsAt(known, uses, values, |log|);
    hide ReadsAt;
    forall n | 0 <= n < |log + [values]| ensures ReadsAt(known, uses, (log + [values])[n], n) {
      if n < |log| {
        assert ReadsAt(known, uses, log[n], n);
      }
    }
  }

  /** A pass after the first: all generators are known, and only their indices are read. */
  method RunAgain(generators: GeneratorsForTest, uses: seq<Source>) returns (values: seq<nat>)
    requires generators.Valid() && generators.known == Registered([], uses)
    modifies generators
    ensures generators.Valid() && generators.known == old(generators.known)
    ensures generators.generatorsInOrder == old(generators.generatorsInOrder)
    ensures generators.Index() == old(generators.Index())
    ensures forall u | u in uses :: IsKnown(generators.known, u.fileInfo)
    ensures Reads(generators.known, generators.Index(), uses, values)
  {
    hide Registered, IsKnown, Reads, Next;
    RegisteredExtends([], uses);
    AllKnown(generators.known, uses);
    values := RunBody(generators, uses);
    assert generators.Index() == old(generators.Index()) + Zeros(0);
  }

  /** The first pass, which registers the generators. */
  method RunFirst(generators: GeneratorsForTest, uses: seq<Source>) returns (values: seq<nat>)
    requires generators.Valid() && generators.known == [] && generators.generatorsInOrder == []
    modifies generators
    ensures generators.Valid() && generators.known == Registered([], uses)
    ensures forall j | 0 <= j < |generators.generatorsInOrder| :: fresh(generators.generatorsInOrder[j])
    ensures generators.Index() == Zeros(|generators.known|)
    ensures forall u | u in uses :: IsKnown(generators.known, u.fileInfo)
    ensures Reads(generators.known, generators.Index(), uses, values)
  {
    hide Registered, IsKnown, Reads, Next;
    values := RunBody(generators, uses);
    assert generators.Index() == [] + Zeros(|generators.known|);
  }

  /** The outer loop of `runTest` for such a body: one pass for every combination of
      generator indices, in counting order. */
  method RunCombinations(uses: seq<Source>) returns (log: seq<seq<nat>>)
    ensures var known := Registered([], uses);
            && (forall u | u in uses :: IsKnown(known, u.fileInfo))
            && |log| == Product(Radices(known))
            && InOrder(known, uses, log)
  {
    hide Registered, Tuple, Product, Value, Next, Reads, IsKnown, Advanced, GeneratorsForTest.Valid;
    hide InOrder, Digits, Radices, Zeros, GeneratorsForTest.Index;
    ghost var known := Registered([], uses);
    ghost var sizes := Radices(known);
    ProductPositive(sizes);
    var generators := new GeneratorsForTest();
    var values := RunFirst(generators, uses);
    ghost var inOrder := generators.generatorsInOrder;
    TupleSteps(sizes, 0);
    NoneRead(known, uses);
    InOrderNext(known, uses, [], values);
    log := [] + [values];
    var more := generators.MoveNext();
    while more
      invariant fresh(generators) && generators.Valid() && generators.known == known
      invariant generators.generatorsInOrder == inOrder
      invariant 0 < |log| <= Product(sizes) && InOrder(known, uses, log)
      invariant more <==> |log| < Product(sizes)
      invariant more ==> generators.Index() == Tuple(sizes, |log|)
      decreases Product(sizes) - |log|
    {
      TupleSteps(sizes, |log|);
      values := RunAgain(generators, uses);
      InOrderNext(known, uses, log, values);
      log := log + [values];
      more := generators.MoveNext();
    }
  }
}
