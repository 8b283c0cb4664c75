/** A ledger of every buffer that message parts and message headers have allocated, and what the
    operations on parts do to it. Blocks are numbered in the order they were allocated and a number
    is never used again. */
module BufferLedger {
  import opened Basics

  /** The size that stands for "a message allocated by nanomsg". */
  const NN_MSG: nat := 0xFFFF_FFFF_FFFF_FFFF

  type Block = nat

  datatype Allocator = Malloc | NnAllocMsg

  /** `GivenUp` blocks have been handed to the caller, who answers for them; `Consumed` ones are nanomsg's. */
  datatype Fate = InUse | Freed | GivenUp | Overwritten | Consumed

  datatype Record = Record(allocator: Allocator, fate: Fate, bytes: seq<bv8>)

  datatype PartState = PartState(msg: Option<Block>, size: nat, malloc: bool)

  /** `parts` are the parts alive, `headers` leads from each message header alive to its vector of
      buffers; `faulted` is set by freeing a block that is not there to be freed, or with the wrong deallocator. */
  datatype World<!P(==)> = World(
    parts: map<P, PartState>, headers: map<Block, Block>, blocks: seq<Record>, faulted: bool)

  datatype Op<P> =
    | Fill(p: P, bytes: seq<bv8>)
    | Allocate(p: P, bytes: seq<bv8>, available: bool)
    | Wrap(p: P, block: Option<Block>, size: nat)
    | Move(p: P, from: P)
    | Assign(p: P, from: P)
    | Release(p: P)
    | Destroy(p: P)
    | OpenHeader
    | CloseHeader(header: Block)
    | Receive(bytes: seq<bv8>)
    | Discard(given: Block, how: Allocator)
    | Consume(given: Block)

  function Empty<P>(): World<P> {
    World(map[], map[], [], false)
  }

  function Allocated<P>(w: World<P>, a: Allocator, bytes: seq<bv8>): World<P> {
    w.(blocks := w.blocks + [Record(a, InUse, bytes)])
  }

  function Fated<P>(w: World<P>, b: Block, fate: Fate): World<P> {
    if b < |w.blocks| then w.(blocks := w.blocks[b := w.blocks[b].(fate := fate)]) else w.(faulted := true)
  }

  /** Freeing a block with the deallocator that belongs to `a`. */
  function Deallocated<P>(w: World<P>, b: Block, a: Allocator): World<P> {
    if b < |w.blocks| && w.blocks[b].fate in {InUse, GivenUp} && w.blocks[b].allocator == a then Fated(w, b, Freed)
    else w.(faulted := true)
  }

  function Deallocator(s: PartState): Allocator {
    if s.malloc then Malloc else NnAllocMsg
  }

  function Made<P>(w: World<P>, p: P, s: PartState): World<P> {
    w.(parts := w.parts[p := s])
  }

  function Dropped<P>(w: World<P>, b: Option<Block>, fate: Fate): World<P> {
    if b.Some? then Fated(w, b.value, fate) else w
  }

  /** What the program may do next: parts are used while they live, and a pointer handed to a new
      part without a copy is null or a block of nanomsg's that the caller answers for. The caller frees such
      a block with its own deallocator, and nanomsg takes over only blocks of its own. */
  predicate Enabled<P>(w: World<P>, op: Op<P>) {
    match op
    case Fill(p, _) => p !in w.parts
    case Allocate(p, _, _) => p !in w.parts
    case Wrap(p, b, _) => p !in w.parts && (b.Some? ==> CanWrap(w, b.value))
    case Move(p, from) => p !in w.parts && from in w.parts
    case Assign(p, from) => p in w.parts && from in w.parts
    case Release(p) => p in w.parts
    case Destroy(p) => p in w.parts
    case OpenHeader => true
    case CloseHeader(h) => h in w.headers
    case Receive(_) => true
    case Discard(b, how) => b < |w.blocks| && w.blocks[b].fate == GivenUp && w.blocks[b].allocator == how
    case Consume(b) => CanWrap(w, b)
  }

  predicate CanWrap<P>(w: World<P>, b: Block) {
    b < |w.blocks| && w.blocks[b].allocator == NnAllocMsg && w.blocks[b].fate == GivenUp
  }

  /** The effect of one operation, in the order in which the code assigns fields. */
  function Step<P>(w: World<P>, op: Op<P>): World<P>
    requires Enabled(w, op)
  {
    match op
    case Fill(p, bytes) =>
      Made(Allocated(w, Malloc, bytes), p, PartState(Some(|w.blocks|), |bytes|, true))
    case Allocate(p, bytes, available) =>
      if available then Made(Allocated(w, NnAllocMsg, bytes), p, PartState(Some(|w.blocks|), NN_MSG, false))
      else Made(w, p, PartState(None, NN_MSG, false))
    case Wrap(p, b, size) =>
      Made(Dropped(w, b, InUse), p, PartState(b, size, false))
    case Move(p, from) =>
      Made(Made(w, from, w.parts[from].(msg := None)), p, w.parts[from])
    case Assign(p, from) =>
      var released := Made(w, from, w.parts[from].(msg := None));
      Made(Dropped(released, released.parts[p].msg, Overwritten), p, w.parts[from])
    case Release(p) =>
      Made(Dropped(w, w.parts[p].msg, GivenUp), p, w.parts[p].(msg := None))
    case Destroy(p) =>
      var s := w.parts[p];
      var freed := if s.msg.Some? then Deallocated(w, s.msg.value, Deallocator(s)) else w;
      freed.(parts := freed.parts - {p})
    case OpenHeader =>
      var h := |w.blocks|;
      Allocated(Allocated(w, Malloc, []), Malloc, []).(headers := w.headers[h := h + 1])
    case CloseHeader(h) =>
      Deallocated(Deallocated(w, w.headers[h], Malloc), h, Malloc).(headers := w.headers - {h})
    case Receive(bytes) => Fated(Allocated(w, NnAllocMsg, bytes), |w.blocks|, GivenUp)
    case Discard(b, how) => Deallocated(w, b, how)
    case Consume(b) => Fated(w, b, Consumed)
  }

  predicate Legal<P>(w: World<P>, ops: seq<Op<P>>)
    decreases |ops|
  {
    ops == [] || (Enabled(w, ops[0]) && Legal(Step(w, ops[0]), ops[1..]))
  }

  function Run<P>(w: World<P>, ops: seq<Op<P>>): World<P>
    requires Legal(w, ops)
    decreases |ops|
  {
    if ops == [] then w else Run(Step(w, ops[0]), ops[1..])
  }

  // ---------- what every operation keeps ----------

  ghost predicate Live<P>(w: World<P>, b: Block, a: Allocator) {
    b < |w.blocks| && w.blocks[b].fate == InUse && w.blocks[b].allocator == a
  }

  ghost predicate InHeader<P>(w: World<P>, b: Block) {
    b in w.headers || exists h | h in w.headers :: w.headers[h] == b
  }

  /** A part that holds a block holds a live one that its own destructor frees correctly. */
  ghost predicate OwnsWell<P>(w: World<P>, s: PartState) {
    s.msg.Some? ==>
      && Live(w, s.msg.value, Deallocator(s))
      && !InHeader(w, s.msg.value)
  }

  ghost predicate PartsOwn<P>(w: World<P>) {
    && (forall p | p in w.parts :: OwnsWell(w, w.parts[p]))
    && (forall p, q | p in w.parts && q in w.parts && w.parts[p].msg.Some? && w.parts[p].msg == w.parts[q].msg ::
          p == q)
  }

  ghost predicate HeadersOwn<P>(w: World<P>) {
    && (forall h | h in w.headers :: Live(w, h, Malloc) && Live(w, w.headers[h], Malloc) && w.headers[h] !in w.headers)
    && (forall h, k | h in w.headers && k in w.headers && w.headers[h] == w.headers[k] :: h == k)
  }

  ghost predicate Owned<P>(w: World<P>, b: Block) {
    || (exists p | p in w.parts :: w.parts[p].msg == Some(b))
    || InHeader(w, b)
  }

  /** Nothing was freed twice or by the wrong deallocator; every block in use is held by exactly one
      part or header. */
  ghost predicate Sound<P>(w: World<P>) {
    && !w.faulted
    && PartsOwn(w)
    && HeadersOwn(w)
    && forall b {:trigger Owned(w, b)} | 0 <= b < |w.blocks| && w.blocks[b].fate == InUse :: Owned(w, b)
  }

  lemma OwnedStays<P>(w: World<P>, v: World<P>, b: Block)
    requires Owned(w, b)
    requires forall p | p in w.parts && w.parts[p].msg == Some(b) :: p in v.parts && v.parts[p].msg == Some(b)
    requires forall h | h in w.headers && (h == b || w.headers[h] == b) ::
               h in v.headers && v.headers[h] == w.headers[h]
    ensures Owned(v, b)
  {
  }

  lemma BornKeeps<P>(w: World<P>, p: P, a: Allocator, bytes: seq<bv8>, size: nat)
    requires Sound(w) && p !in w.parts
    ensures Sound(Made(Allocated(w, a, bytes), p, PartState(Some(|w.blocks|), size, a == Malloc)))
  {
    var v := Made(Allocated(w, a, bytes), p, PartState(Some(|w.blocks|), size, a == Malloc));
    forall b | 0 <= b < |v.blocks| && v.blocks[b].fate == InUse ensures Owned(v, b) {
      if b < |w.blocks| {
        OwnedStays(w, v, b);
      } else {
        assert v.parts[p].msg == Some(b);
      }
    }
  }

  lemma WrapKeeps<P>(w: World<P>, op: Op<P>)
    requires Sound(w) && Enabled(w, op) && op.Wrap?
    ensures Sound(Step(w, op))
  {
    var v := Step(w, op);
    forall b | 0 <= b < |v.blocks| && v.blocks[b].fate == InUse ensures Owned(v, b) {
      if w.blocks[b].fate == InUse {
        OwnedStays(w, v, b);
      } else {
        assert v.parts[op.p].msg == Some(b);
      }
    }
  }

  /** A part's pointer set to null, and its block, if it had one, to a fate other than in use. */
  function Emptied<P>(w: World<P>, p: P, fate: Fate): World<P>
    requires p in w.parts
  {
    Made(Dropped(w, w.parts[p].msg, fate), p, w.parts[p].(msg := None))
  }

  lemma EmptiedKeeps<P>(w: World<P>, p: P, fate: Fate)
    requires Sound(w) && p in w.parts && fate != InUse
    ensures Sound(Emptied(w, p, fate))
  {
    var v := Emptied(w, p, fate);
    forall b | 0 <= b < |v.blocks| && v.blocks[b].fate == InUse ensures Owned(v, b) {
      OwnedStays(w, v, b);
    }
  }

  /** A part's state moved into a part that holds nothing. */
  function Refilled<P>(w: World<P>, p: P, from: P): World<P>
    requires from in w.parts
  {
    Made(Made(w, from, w.parts[from].(msg := None)), p, w.parts[from])
  }

  lemma RefilledKeeps<P>(w: World<P>, p: P, from: P)
    requires Sound(w) && from in w.parts && p != from && (p in w.parts ==> w.parts[p].msg == None)
    ensures Sound(Refilled(w, p, from))
  {
    var v := Refilled(w, p, from);
    forall b | 0 <= b < |v.blocks| && v.blocks[b].fate == InUse ensures Owned(v, b) {
      MovedIsOwned(w, v, p, from, b);
    }
  }

  lemma AssignKeeps<P>(w: World<P>, p: P, from: P)
    requires Sound(w) && p in w.parts && from in w.parts
    ensures Sound(Step(w, Assign(p, from)))
  {
    hide Sound;
    if p == from {
      SelfAssignKeeps(w, p);
    } else {
      EmptiedKeeps(w, p, Overwritten);
      RefilledKeeps(Emptied(w, p, Overwritten), p, from);
      assert Step(w, Assign(p, from)).parts == Refilled(Emptied(w, p, Overwritten), p, from).parts;
    }
  }

  /** Assigning a part to itself changes nothing. */
  lemma SelfAssignKeeps<P>(w: World<P>, p: P)
    requires p in w.parts
    ensures Step(w, Assign(p, p)) == w
  {
    assert Step(w, Assign(p, p)).parts == w.parts;
  }

  lemma MovedIsOwned<P>(w: World<P>, v: World<P>, p: P, from: P, b: Block)
    requires Owned(w, b) && from in w.parts && p in v.parts && v.parts[p].msg == w.parts[from].msg
    requires v.headers == w.headers
    requires forall q | q in w.parts && q != p && q != from :: q in v.parts && v.parts[q] == w.parts[q]
    requires p in w.parts && w.parts[p].msg == Some(b) ==> p == from
    ensures Owned(v, b)
  {
    if q :| q in w.parts && w.parts[q].msg == Some(b) {
      assert v.parts[if q == from then p else q].msg == Some(b);
    }
  }

  lemma DestroyKeeps<P>(w: World<P>, p: P)
    requires Sound(w) && p in w.parts
    ensures Sound(Step(w, Destroy(p)))
  {
    var v := Step(w, Destroy(p));
    forall b | 0 <= b < |v.blocks| && v.blocks[b].fate == InUse ensures Owned(v, b) {
      OwnedStays(w, v, b);
    }
  }

  lemma OpenKeeps<P>(w: World<P>)
    requires Sound(w)
    ensures Sound(Step(w, OpenHeader))
  {
    var v := Step(w, OpenHeader);
    forall b | 0 <= b < |v.blocks| && v.blocks[b].fate == InUse ensures Owned(v, b) {
      if b < |w.blocks| {
        OwnedStays(w, v, b);
      } else {
        assert v.headers[|w.blocks|] == |w.blocks| + 1;
      }
    }
  }

  lemma CloseKeeps<P>(w: World<P>, h: Block)
    requires Sound(w) && h in w.headers
    ensures Sound(Step(w, CloseHeader(h)))
  {
    var v := Step(w, CloseHeader(h));
    forall b | 0 <= b < |v.blocks| && v.blocks[b].fate == InUse ensures Owned(v, b) {
      OwnedStays(w, v, b);
    }
  }

  lemma OutsideKeeps<P>(w: World<P>, op: Op<P>)
    requires Sound(w) && Enabled(w, op) && (op.Receive? || op.Discard? || op.Consume?)
    ensures Sound(Step(w, op))
  {
    var v := Step(w, op);
    forall b | 0 <= b < |v.blocks| && v.blocks[b].fate == InUse ensures Owned(v, b) {
      OwnedStays(w, v, b);
    }
  }

  lemma StepKeepsSound<P>(w: World<P>, op: Op<P>)
    requires Sound(w) && Enabled(w, op)
    ensures Sound(Step(w, op))
  {
    hide Sound;
    match op {
      case Fill(p, bytes) => BornKeeps(w, p, Malloc, bytes, |bytes|);
      case Allocate(p, bytes, available) =>
        if available { BornKeeps(w, p, NnAllocMsg, bytes, NN_MSG); } else { WrapKeeps(w, Wrap(p, None, NN_MSG)); }
      case Wrap(_, _, _) => WrapKeeps(w, op);
      case Move(p, from) => RefilledKeeps(w, p, from);
      case Assign(p, from) => AssignKeeps(w, p, from);
      case Release(p) => EmptiedKeeps(w, p, GivenUp);
      case Destroy(p) => DestroyKeeps(w, p);
      case OpenHeader => OpenKeeps(w);
      case CloseHeader(h) => CloseKeeps(w, h);
      case Receive(_) => OutsideKeeps(w, op);
      case Discard(_, _) => OutsideKeeps(w, op);
      case Consume(_) => OutsideKeeps(w, op);
    }
  }

  /** Over any run of operations nothing is freed twice or with the wrong deallocator, and no block
      is shared. */
  lemma {:induction false} RunKeepsSound<P>(w: World<P>, ops: seq<Op<P>>)
    requires Sound(w) && Legal(w, ops)
    ensures Sound(Run(w, ops))
    decreases |ops|
  {
    hide Sound;
    if ops != [] {
      StepKeepsSound(w, ops[0]);
      RunKeepsSound(Step(w, ops[0]), ops[1..]);
    }
  }

  lemma {:induction false} RunNext<P>(w: World<P>, ops: seq<Op<P>>, op: Op<P>)
    requires Legal(w, ops) && Enabled(Run(w, ops), op)
    ensures Legal(w, ops + [op]) && Run(w, ops + [op]) == Step(Run(w, ops), op)
    decreases |ops|
  {
    if ops == [] {
      assert [op][1..] == [];
      assert ops + [op] == [op];
    } else {
      RunNext(Step(w, ops[0]), ops[1..], op);
      assert (ops + [op])[1..] == ops[1..] + [op];
    }
  }
}
