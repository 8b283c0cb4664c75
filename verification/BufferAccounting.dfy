/** Where every allocated block ends up, over any run of operations. */
module BufferAccounting {
  import opened Basics
  import opened BufferLedger

  /** How many blocks have come to the fate `f`. */
  function Count(blocks: seq<Record>, f: Fate): nat {
    if blocks == [] then 0
    else Count(blocks[..|blocks| - 1], f) + if blocks[|blocks| - 1].fate == f then 1 else 0
  }

  function WithFate(blocks: seq<Record>, f: Fate): set<Block> {
    set b | 0 <= b < |blocks| && blocks[b].fate == f
  }

  lemma WithFateNext(blocks: seq<Record>, f: Fate)
    requires blocks != []
    ensures var n := |blocks| - 1;
            && n !in WithFate(blocks[..n], f)
            && WithFate(blocks, f) == WithFate(blocks[..n], f) + if blocks[n].fate == f then {n} else {}
  {
  }

  lemma {:induction false} CountIsSize(blocks: seq<Record>, f: Fate)
    ensures |WithFate(blocks, f)| == Count(blocks, f)
    decreases |blocks|
  {
    if blocks == [] {
      assert WithFate(blocks, f) == {};
    } else {
      hide WithFate;
      CountIsSize(blocks[..|blocks| - 1], f);
      WithFateNext(blocks, f);
    }
  }

  lemma {:induction false} EveryFateCounted(blocks: seq<Record>)
    ensures |blocks| == Count(blocks, InUse) + Count(blocks, Freed) + Count(blocks, GivenUp)
                        + Count(blocks, Overwritten) + Count(blocks, Consumed)
    decreases |blocks|
  {
    if blocks != [] {
      EveryFateCounted(blocks[..|blocks| - 1]);
    }
  }

  /** The parts that hold a block, with the block. */
  function Holders<P>(w: World<P>): map<P, Block> {
    map p | p in w.parts && w.parts[p].msg.Some? :: w.parts[p].msg.value
  }

  lemma {:induction false} InjectiveSize<K, V>(m: map<K, V>)
    requires Injective(m)
    ensures |m.Values| == |m.Keys|
    decreases |m|
  {
    if m.Keys == {} {
      assert m.Values == {};
    } else {
      var k :| k in m;
      var n := m - {k};
      InjectiveSize(n);
      forall v | v in m.Values ensures v in n.Values + {m[k]} {
        var l :| l in m && m[l] == v;
        assert l != k ==> l in n;
      }
      assert m.Values == n.Values + {m[k]};
      assert m.Keys == n.Keys + {k};
    }
  }

  /** The blocks in use are those of the parts, the headers and the headers' vectors. */
  lemma InUseAreHeld<P>(w: World<P>)
    requires Sound(w)
    ensures WithFate(w.blocks, InUse) == Holders(w).Values + w.headers.Keys + w.headers.Values
  {
    forall b | b in WithFate(w.blocks, InUse) ensures b in Holders(w).Values + w.headers.Keys + w.headers.Values {
      assert Owned(w, b);
      if p :| p in w.parts && w.parts[p].msg == Some(b) {
        assert p in Holders(w) && Holders(w)[p] == b;
      }
    }
  }

  lemma HeldApart<P>(w: World<P>)
    requires Sound(w)
    ensures Injective(Holders(w)) && Injective(w.headers)
    ensures Holders(w).Values !! w.headers.Keys
    ensures (Holders(w).Values + w.headers.Keys) !! w.headers.Values
  {
  }

  lemma InUseSize<P>(w: World<P>)
    requires Sound(w)
    ensures Count(w.blocks, InUse) == |Holders(w)| + 2 * |w.headers|
  {
    CountIsSize(w.blocks, InUse);
    InUseAreHeld(w);
    HeldApart(w);
    hide *;
    InjectiveSize(Holders(w));
    InjectiveSize(w.headers);
  }

  /** After any legal run every block ever allocated is either held, by exactly one part or header, or
      freed, or in the hands of the caller, or was dropped by a move assignment, or taken over by nanomsg. */
  lemma Balance<P>(ops: seq<Op<P>>)
    requires Legal(Empty(), ops)
    ensures var w := Run(Empty(), ops);
            |w.blocks| == Count(w.blocks, Freed) + |Holders(w)| + 2 * |w.headers|
                          + Count(w.blocks, GivenUp) + Count(w.blocks, Overwritten) + Count(w.blocks, Consumed)
  {
    RunKeepsSound(Empty(), ops);
    var w := Run(Empty(), ops);
    InUseSize(w);
    EveryFateCounted(w.blocks);
  }

  // ---------- which operations lose blocks ----------

  /** Blocks the operation hands to the caller or drops, less those the caller frees or hands back. */
  function Lost<P>(w: World<P>, op: Op<P>): int
    requires Enabled(w, op)
  {
    match op
    case Assign(p, from) => if p != from && w.parts[p].msg.Some? then 1 else 0
    case Release(p) => if w.parts[p].msg.Some? then 1 else 0
    case Wrap(_, b, _) => if b.Some? then -1 else 0
    case Receive(_) => 1
    case Discard(_, _) => -1
    case Consume(_) => -1
    case _ => 0
  }

  function LostIn<P>(w: World<P>, ops: seq<Op<P>>): int
    requires Legal(w, ops)
    decreases |ops|
  {
    if ops == [] then 0 else Lost(w, ops[0]) + LostIn(Step(w, ops[0]), ops[1..])
  }

  function Adrift(blocks: seq<Record>): nat {
    Count(blocks, GivenUp) + Count(blocks, Overwritten)
  }

  lemma {:induction false} CountUpdated(blocks: seq<Record>, b: Block, r: Record, f: Fate)
    requires b < |blocks|
    ensures Count(blocks[b := r], f)
            == Count(blocks, f) - (if blocks[b].fate == f then 1 else 0) + (if r.fate == f then 1 else 0)
    decreases |blocks|
  {
    var n := |blocks| - 1;
    if b < n {
      assert blocks[b := r][..n] == blocks[..n][b := r];
      CountUpdated(blocks[..n], b, r, f);
    } else {
      assert blocks[b := r][..n] == blocks[..n];
    }
  }

  lemma CountAppended(blocks: seq<Record>, r: Record, f: Fate)
    ensures Count(blocks + [r], f) == Count(blocks, f) + if r.fate == f then 1 else 0
  {
    assert (blocks + [r])[..|blocks|] == blocks;
  }

  lemma AdriftFated<P>(w: World<P>, b: Block, fate: Fate)
    requires b < |w.blocks|
    ensures Adrift(Fated(w, b, fate).blocks)
            == Adrift(w.blocks) - (if w.blocks[b].fate in {GivenUp, Overwritten} then 1 else 0)
               + (if fate in {GivenUp, Overwritten} then 1 else 0)
  {
    CountUpdated(w.blocks, b, w.blocks[b].(fate := fate), GivenUp);
    CountUpdated(w.blocks, b, w.blocks[b].(fate := fate), Overwritten);
  }

  lemma AdriftAllocated<P>(w: World<P>, a: Allocator, bytes: seq<bv8>)
    ensures Adrift(Allocated(w, a, bytes).blocks) == Adrift(w.blocks)
  {
    CountAppended(w.blocks, Record(a, InUse, bytes), GivenUp);
    CountAppended(w.blocks, Record(a, InUse, bytes), Overwritten);
  }

  lemma StepLoses<P>(w: World<P>, op: Op<P>)
    requires Sound(w) && Enabled(w, op)
    ensures Adrift(Step(w, op).blocks) == Adrift(w.blocks) + Lost(w, op)
  {
    hide Adrift;
    match op {
      case Fill(_, bytes) => AdriftAllocated(w, Malloc, bytes);
      case Allocate(_, bytes, _) => AdriftAllocated(w, NnAllocMsg, bytes);
      case Wrap(_, b, _) => if b.Some? { AdriftFated(w, b.value, InUse); }
      case Move(_, _) =>
      case Assign(p, from) =>
        if p != from && w.parts[p].msg.Some? { AdriftFated(w, w.parts[p].msg.value, Overwritten); }
      case Release(p) => if w.parts[p].msg.Some? { AdriftFated(w, w.parts[p].msg.value, GivenUp); }
      case Destroy(p) => if w.parts[p].msg.Some? { AdriftFated(w, w.parts[p].msg.value, Freed); }
      case OpenHeader =>
        AdriftAllocated(w, Malloc, []);
        AdriftAllocated(Allocated(w, Malloc, []), Malloc, []);
      case CloseHeader(h) =>
        AdriftFated(w, w.headers[h], Freed);
        AdriftFated(Fated(w, w.headers[h], Freed), h, Freed);
      case Receive(bytes) =>
        AdriftAllocated(w, NnAllocMsg, bytes);
        AdriftFated(Allocated(w, NnAllocMsg, bytes), |w.blocks|, GivenUp);
      case Discard(b, _) => AdriftFated(w, b, Freed);
      case Consume(b) => AdriftFated(w, b, Consumed);
    }
  }

  lemma {:induction false} RunLoses<P>(w: World<P>, ops: seq<Op<P>>)
    requires Sound(w) && Legal(w, ops)
    ensures Adrift(Run(w, ops).blocks) == Adrift(w.blocks) + LostIn(w, ops)
    decreases |ops|
  {
    hide Sound, Adrift;
    if ops != [] {
      StepKeepsSound(w, ops[0]);
      StepLoses(w, ops[0]);
      RunLoses(Step(w, ops[0]), ops[1..]);
    }
  }

  /** A block that nobody has to free any more. */
  predicate Settled(r: Record) {
    r.fate == Freed || r.fate == Consumed
  }

  lemma {:induction false} AllSettled(blocks: seq<Record>)
    ensures Count(blocks, Freed) + Count(blocks, Consumed) == |blocks|
            <==> forall b | 0 <= b < |blocks| :: Settled(blocks[b])
    ensures Count(blocks, Freed) + Count(blocks, Consumed) <= |blocks|
    decreases |blocks|
  {
    if blocks != [] {
      AllSettled(blocks[..|blocks| - 1]);
    }
  }

  /** In a program that has destroyed all its parts and headers every block is freed, or taken over by
      nanomsg, if and only if as many blocks were freed, wrapped again or consumed from the caller's hands as
      were released, received or assigned over. */
  lemma LeakFreeIff<P>(ops: seq<Op<P>>)
    requires Legal(Empty(), ops)
    requires Run(Empty(), ops).parts == map[] && Run(Empty(), ops).headers == map[]
    ensures var blocks := Run(Empty(), ops).blocks;
            (forall b | 0 <= b < |blocks| :: Settled(blocks[b])) <==> LostIn(Empty(), ops) == 0
  {
    var w := Run(Empty(), ops);
    Balance(ops);
    RunLoses(Empty(), ops);
    AllSettled(w.blocks);
    assert Holders(w) == map[];
  }

  /** An example: the block of the part assigned over is lost although both parts are destroyed. */
  lemma AssignedOver()
    ensures var ops := [Fill(0, []), Fill(1, []), Assign(0, 1), Destroy(0), Destroy(1)];
            && Legal(Empty<nat>(), ops)
            && var w := Run(Empty(), ops);
               && w.parts == map[] && w.headers == map[] && LostIn(Empty(), ops) == 1
               && |w.blocks| == 2 && w.blocks[0].fate == Overwritten
  {
    var a, b := Fill(0, []), Fill(1, []);
    var w1 := Step(Empty<nat>(), a);
    var w2 := Step(w1, b);
    var w3 := Step(w2, Assign(0, 1));
    var w4 := Step(w3, Destroy(0));
    var w5 := Step(w4, Destroy(1));
    assert w3.parts == map[0 := PartState(Some(1), 0, true), 1 := PartState(None, 0, true)];
    assert w5.parts == map[] && w3.blocks[0].fate == Overwritten;
    RunFrom(w5, [], 0);
    RunFrom(w4, [Destroy(1)], 0);
    RunFrom(w3, [Destroy(0), Destroy(1)], 0);
    RunFrom(w2, [Assign(0, 1), Destroy(0), Destroy(1)], 1);
    RunFrom(w1, [b, Assign(0, 1), Destroy(0), Destroy(1)], 1);
    RunFrom(Empty(), [a, b, Assign(0, 1), Destroy(0), Destroy(1)], 1);
  }

  lemma RunFrom(w: World<nat>, ops: seq<Op<nat>>, lost: int)
    requires ops == [] ==> lost == 0
    requires ops != [] ==>
               && Enabled(w, ops[0]) && Legal(Step(w, ops[0]), ops[1..])
               && lost == Lost(w, ops[0]) + LostIn(Step(w, ops[0]), ops[1..])
    ensures Legal(w, ops) && LostIn(w, ops) == lost
    ensures Run(w, ops) == if ops == [] then w else Run(Step(w, ops[0]), ops[1..])
  {
  }

  lemma StepKeepsFinal<P>(w: World<P>, op: Op<P>, b: Block)
    requires Sound(w) && Enabled(w, op) && b < |w.blocks| && w.blocks[b].fate in {Freed, Overwritten}
    ensures b < |Step(w, op).blocks| && Step(w, op).blocks[b] == w.blocks[b]
  {
  }

  /** A block that was overwritten is lost for good: no operation can reach it. */
  lemma {:induction false} OverwrittenIsFinal<P>(w: World<P>, ops: seq<Op<P>>, b: Block)
    requires Sound(w) && Legal(w, ops) && b < |w.blocks| && w.blocks[b].fate == Overwritten
    ensures b < |Run(w, ops).blocks| && Run(w, ops).blocks[b] == w.blocks[b]
    decreases |ops|
  {
    hide Step, Sound;
    if ops != [] {
      StepKeepsSound(w, ops[0]);
      StepKeepsFinal(w, ops[0], b);
      OverwrittenIsFinal(Step(w, ops[0]), ops[1..], b);
    }
  }

  /** A freed block stays freed, whatever comes after. */
  lemma {:induction false} FreedIsFinal<P>(w: World<P>, ops: seq<Op<P>>, b: Block)
    requires Sound(w) && Legal(w, ops) && b < |w.blocks| && w.blocks[b].fate == Freed
    ensures b < |Run(w, ops).blocks| && Run(w, ops).blocks[b] == w.blocks[b]
    decreases |ops|
  {
    hide Step, Sound;
    if ops != [] {
      StepKeepsSound(w, ops[0]);
      StepKeepsFinal(w, ops[0], b);
      FreedIsFinal(Step(w, ops[0]), ops[1..], b);
    }
  }

  lemma StepKeepsContents<P>(w: World<P>, op: Op<P>, b: Block)
    requires Enabled(w, op) && b < |w.blocks|
    ensures var after := Step(w, op).blocks;
            b < |after| && after[b].bytes == w.blocks[b].bytes && after[b].allocator == w.blocks[b].allocator
  {
  }

  /** A block keeps its allocator and its bytes through every run. */
  lemma {:induction false} ContentsStay<P>(w: World<P>, ops: seq<Op<P>>, b: Block)
    requires Legal(w, ops) && b < |w.blocks|
    ensures var after := Run(w, ops).blocks;
            b < |after| && after[b].bytes == w.blocks[b].bytes && after[b].allocator == w.blocks[b].allocator
    decreases |ops|
  {
    hide Step;
    if ops != [] {
      StepKeepsContents(w, ops[0], b);
      ContentsStay(Step(w, ops[0]), ops[1..], b);
    }
  }

  /** Moving a part and destroying what is left of it only renames the owner: no block changes. */
  lemma MoveThenDestroy<P>(w: World<P>, p: P, q: P)
    requires Sound(w) && p in w.parts && q !in w.parts
    ensures var v := Run(w, [Op.Move(q, p), Destroy(p)]);
            v.blocks == w.blocks && !v.faulted && v.parts == (w.parts - {p})[q := w.parts[p]]
  {
    var moved := Step(w, Op.Move(q, p));
    assert [Op.Move(q, p), Destroy(p)][1..] == [Destroy(p)];
    assert Run(moved, [Destroy(p)]) == Step(moved, Destroy(p));
    assert Step(moved, Destroy(p)).parts == (w.parts - {p})[q := w.parts[p]];
  }

  /** A pointer that nobody is responsible for may be wrapped without a copy exactly when nanomsg
      allocated it: the destructor always takes the other deallocator for such a part. */
  lemma WrapNeedsNanomsgBlock<P>(w: World<P>, p: P, b: Block, size: nat)
    requires Sound(w) && p !in w.parts && b < |w.blocks| && w.blocks[b].fate == GivenUp
    ensures var wrapped := Made(Fated(w, b, InUse), p, PartState(Some(b), size, false));
            Step(wrapped, Destroy(p)).faulted <==> w.blocks[b].allocator == Malloc
  {
  }
}
