/** Generators that string several value sources together and look values up by one index. */
module CompositeGenerators {
  import opened Basics

  const INT_MODULUS := 0x1_0000_0000

  /** A value source: a closed range, or the values added to a `ValuesGenerator`. */
  datatype Generator =
    | Between(from: int, to: int)
    | Values(values: seq<int>)
  {
    /** A range whose end lies below its start has its negative size cast to `size_t`. */
    function Size(): nat {
      match this
      case Between(from, to) =>
        if from <= 1 + to then 1 + to - from else (1 + to - from) % SIZE_MODULUS
      case Values(values) => |values|
    }

    function GetValue(index: nat): int
      requires index < Size()
    {
      match this
      case Between(from, to) => from + ToInt(index)
      case Values(values) => values[index]
    }

    function Elements(): (s: seq<int>)
      ensures |s| == Size()
    {
      seq(Size(), i requires 0 <= i < Size() => GetValue(i))
    }
  }

  /** `static_cast<int>` of a size. */
  function ToInt(n: nat): (i: int)
    ensures -(INT_MODULUS / 2) <= i < INT_MODULUS / 2
    ensures n < INT_MODULUS / 2 ==> i == n
  {
    (n + INT_MODULUS / 2) % INT_MODULUS - INT_MODULUS / 2
  }

  /** All values in order. */
  function Flat(composed: seq<Generator>): seq<int> {
    if composed == [] then [] else composed[0].Elements() + Flat(composed[1..])
  }

  lemma {:induction false} FlatConcat(a: seq<Generator>, b: seq<Generator>)
    ensures Flat(a + b) == Flat(a) + Flat(b)
  {
    if a == [] {
      assert a + b == b;
    } else {
      assert (a + b)[1..] == a[1..] + b;
      FlatConcat(a[1..], b);
    }
  }

  /** A range of ordinary size holds its numbers in order, and no other. */
  lemma BetweenElements(from: int, to: int, i: nat)
    requires from <= to < from + INT_MODULUS / 2
    ensures |Between(from, to).Elements()| == to - from + 1
    ensures from + i <= to ==> Between(from, to).Elements()[i] == from + i
  {
  }

  /** A list of values holds them in order. */
  lemma ValuesElements(values: seq<int>)
    ensures Values(values).Elements() == values
  {
  }

  /** The list and the total of a composite generator, and what the methods make of them. */
  datatype Composite = Composite(composed: seq<Generator>, totalSize: nat) {
    function With(g: Generator): Composite {
      Composite(composed + [g], totalSize + g.Size())
    }

    function Joined(other: Composite): Composite {
      Composite(composed + other.composed, totalSize + other.totalSize)
    }

    /** The total stays. */
    function MovedFrom(): Composite {
      Composite([], totalSize)
    }
  }

  class CompositeGenerator {
    var composed: seq<Generator>
    var fileInfo: string
    var totalSize: nat

    ghost function State(): Composite
      reads this
    {
      Composite(composed, totalSize)
    }

    /** The size handed to the index registry covers the values held. */
    ghost predicate Valid()
      reads this
    {
      totalSize >= |Flat(composed)|
    }

    /** It is their number. */
    ghost predicate Consistent()
      reads this
    {
      totalSize == |Flat(composed)|
    }

    constructor ()
      ensures composed == [] && totalSize == 0 && fileInfo == "" && Valid() && Consistent()
    {
      composed := [];
      fileInfo := "";
      totalSize := 0;
    }

    /** The copy constructor, which takes the contents of its argument. */
    constructor Take(other: CompositeGenerator)
      requires other.Valid()
      modifies other
      ensures Valid() && other.Valid()
      ensures composed == old(other.composed) && totalSize == old(other.totalSize) && fileInfo == old(other.fileInfo)
      ensures other.composed == [] && other.totalSize == old(other.totalSize) && other.fileInfo == fileInfo
    {
      composed := [];
      fileInfo := other.fileInfo;
      totalSize := 0;
      new;
      Move(other);
      assert composed == [] + old(other.composed) == old(other.composed);
    }

    method SetFileInfo(info: string)
      modifies this`fileInfo
      ensures fileInfo == info
    {
      fileInfo := info;
    }

    method Add(generator: Generator)
      requires Valid()
      modifies this`composed, this`totalSize
      ensures Valid() && Flat(composed) == old(Flat(composed)) + generator.Elements()
      ensures State() == old(State()).With(generator)
      ensures Consistent() <==> old(Consistent())
    {
      totalSize := totalSize + generator.Size();
      composed := composed + [generator];
      FlatConcat(old(composed), [generator]);
      assert Flat([generator]) == generator.Elements() + Flat([]);
    }

    method ThenValue(value: int)
      requires Valid()
      modifies this`composed, this`totalSize
      ensures Valid() && Flat(composed) == old(Flat(composed)) + [value]
      ensures State() == old(State()).With(Values([value])) && totalSize == old(totalSize) + 1
      ensures Consistent() <==> old(Consistent())
    {
      Add(Values([value]));
      assert Values([value]).Elements() == [value];
    }

    /** The values of `other` follow; `other` keeps its total although it is left empty, so it
        is consistent afterwards exactly if that total is zero. */
    method Then(other: CompositeGenerator)
      requires other != this && Valid() && other.Valid()
      modifies this`composed, this`totalSize, other`composed
      ensures Valid() && other.Valid()
      ensures Flat(composed) == old(Flat(composed)) + old(Flat(other.composed))
      ensures State() == old(State()).Joined(old(other.State())) && other.State() == old(other.State()).MovedFrom()
      ensures Consistent() <==> old(Consistent() && other.Consistent())
      ensures other.Consistent() <==> old(other.totalSize) == 0
    {
      Move(other);
      FlatConcat(old(composed), old(other.composed));
    }

    method Move(other: CompositeGenerator)
      requires other != this
      modifies this`composed, this`totalSize, other`composed
      ensures State() == old(State()).Joined(old(other.State())) && other.State() == old(other.State()).MovedFrom()
    {
      composed := composed + other.composed;
      totalSize := totalSize + other.totalSize;
      other.composed := [];
    }

    /** The conversion to a value: `None` stands for the internal error "Indexed past end". */
    method ValueAt(overallIndex: nat) returns (r: Option<int>)
      ensures r == if overallIndex < |Flat(composed)| then Some(Flat(composed)[overallIndex]) else None
    {
      var i, index := 0, 0;
      assert composed[0..] == composed;
      while i < |composed|
        invariant 0 <= i <= |composed| && index <= overallIndex
        invariant |Flat(composed)| == index + |Flat(composed[i..])|
        invariant overallIndex < |Flat(composed)| ==>
                    Flat(composed)[overallIndex] == Flat(composed[i..])[overallIndex - index]
      {
        var generator := composed[i];
        assert composed[i..][1..] == composed[i + 1..];
        if overallIndex >= index && overallIndex < index + generator.Size() {
          return Some(generator.GetValue(overallIndex - index));
        }
        index := index + generator.Size();
        i := i + 1;
      }
      return None;
    }
  }

  // ---------- any sequence of calls on any number of generators ----------

  datatype Call =
    | Add(target: nat, generator: Generator)
    | Then(target: nat, other: nat)

  type Pool = seq<Composite>

  /** Calls are made on generators there are, and none is strung to itself. */
  predicate Fits(count: nat, c: Call) {
    c.target < count && (c.Then? ==> c.other < count && c.other != c.target)
  }

  function Perform(p: Pool, c: Call): (r: Pool)
    requires Fits(|p|, c)
    ensures |r| == |p|
  {
    var t := p[c.target];
    match c
    case Add(target, g) => p[target := t.With(g)]
    case Then(target, other) => p[target := t.Joined(p[other])][other := p[other].MovedFrom()]
  }

  predicate AllFit(count: nat, calls: seq<Call>) {
    forall i | 0 <= i < |calls| :: Fits(count, calls[i])
  }

  function PerformAll(p: Pool, calls: seq<Call>): (r: Pool)
    requires AllFit(|p|, calls)
    ensures |r| == |p|
    decreases |calls|
  {
    if calls == [] then p else PerformAll(Perform(p, calls[0]), calls[1..])
  }

  /** What is said of a generator from the calls alone: its total, and whether that counts values the
      generator does not hold. */
  datatype Mark = Mark(total: nat, tainted: bool)

  /** A generator moved from keeps its total, and passes its own surplus on. */
  function Marked(marks: seq<Mark>, c: Call): (r: seq<Mark>)
    requires Fits(|marks|, c)
    ensures |r| == |marks|
  {
    var t := marks[c.target];
    match c
    case Add(target, g) => marks[target := Mark(t.total + g.Size(), t.tainted)]
    case Then(target, other) =>
      var o := marks[other];
      marks[target := Mark(t.total + o.total, t.tainted || o.tainted)][other := Mark(o.total, o.total > 0)]
  }

  function MarkedAll(marks: seq<Mark>, calls: seq<Call>): (r: seq<Mark>)
    requires AllFit(|marks|, calls)
    ensures |r| == |marks|
    decreases |calls|
  {
    if calls == [] then marks else MarkedAll(Marked(marks, calls[0]), calls[1..])
  }

  ghost predicate Agree(c: Composite, m: Mark) {
    && c.totalSize == m.total && c.totalSize >= |Flat(c.composed)|
    && (c.totalSize == |Flat(c.composed)| <==> !m.tainted)
  }

  ghost predicate AllAgree(p: Pool, marks: seq<Mark>) {
    |p| == |marks| && forall i | 0 <= i < |p| :: Agree(p[i], marks[i])
  }

  lemma CallKeepsMarks(p: Pool, marks: seq<Mark>, c: Call)
    requires AllAgree(p, marks) && Fits(|p|, c)
    ensures AllAgree(Perform(p, c), Marked(marks, c))
  {
    var t := p[c.target];
    assert Agree(t, marks[c.target]);
    match c
    case Add(_, g) =>
      FlatConcat(t.composed, [g]);
      assert Flat([g]) == g.Elements() + Flat([]);
    case Then(_, other) =>
      assert Agree(p[other], marks[other]);
      FlatConcat(t.composed, p[other].composed);
  }

  /** After any calls the registered size of a generator is at least the number of its values, and is that
      number, so that no index below it runs past the end, if and only if the calls left it untainted. */
  lemma {:induction false} ConsistentIffUntainted(p: Pool, marks: seq<Mark>, calls: seq<Call>)
    requires AllAgree(p, marks) && AllFit(|p|, calls)
    ensures AllAgree(PerformAll(p, calls), MarkedAll(marks, calls))
    decreases |calls|
  {
    if calls != [] {
      CallKeepsMarks(p, marks, calls[0]);
      ConsistentIffUntainted(Perform(p, calls[0]), Marked(marks, calls[0]), calls[1..]);
    }
  }

  /** Once tainted, a generator stays so: no call repairs a total. */
  lemma {:induction false} TaintStays(marks: seq<Mark>, calls: seq<Call>, i: nat)
    requires AllFit(|marks|, calls) && i < |marks| && marks[i].tainted && marks[i].total > 0
    ensures MarkedAll(marks, calls)[i].tainted
    decreases |calls|
  {
    if calls != [] {
      TaintStays(Marked(marks, calls[0]), calls[1..], i);
    }
  }

  /** No call uses a generator that an earlier call has moved from. */
  predicate NeverReused(calls: seq<Call>) {
    forall i, j | 0 <= i < j < |calls| :: calls[i].Then? ==>
      calls[j].target != calls[i].other && (calls[j].Then? ==> calls[j].other != calls[i].other)
  }

  /** If nothing moved from is used again, every generator never moved from stays consistent. */
  lemma {:induction false} UsedOnceStaysUntainted(marks: seq<Mark>, calls: seq<Call>, i: nat)
    requires AllFit(|marks|, calls) && NeverReused(calls) && i < |marks| && !marks[i].tainted
    requires forall j | 0 <= j < |calls| && calls[j].Then? :: calls[j].other != i && !marks[calls[j].other].tainted
    ensures !MarkedAll(marks, calls)[i].tainted
    decreases |calls|
  {
    if calls != [] {
      var next := Marked(marks, calls[0]);
      forall j | 0 <= j < |calls[1..]| && calls[1..][j].Then?
        ensures calls[1..][j].other != i && !next[calls[1..][j].other].tainted
      {
        assert calls[1..][j] == calls[j + 1];
      }
      UsedOnceStaysUntainted(next, calls[1..], i);
    }
  }

  /** Moving twice from one generator counts its values twice, unless there were none. */
  lemma MovedTwice(target: Mark, again: Mark, other: Mark)
    requires !target.tainted && !again.tainted && !other.tainted
    ensures MarkedAll([target, again, other], [Call.Then(0, 2), Call.Then(1, 2)])[1].tainted <==> other.total > 0
  {
    var calls := [Call.Then(0, 2), Call.Then(1, 2)];
    assert calls[1..] == [calls[1]] && calls[1..][1..] == [];
    var once := Marked([target, again, other], calls[0]);
    assert MarkedAll(once, [calls[1]]) == Marked(once, calls[1]);
  }
}
