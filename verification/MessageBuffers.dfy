/** Parts and messages as objects that hold buffers, and the sending of a message. */
module MessageBuffers {
  import opened Basics
  import opened BufferLedger

  /** The allocators of the C library and of nanomsg. `history` is every operation so far, and `world`
      what the ledger says after it. */
  class Heap {
    var made: nat
    ghost var history: seq<Op<Part>>
    ghost var world: World<Part>

    ghost predicate Valid()
      reads this, world.parts.Keys
    {
      && Recorded()
      && Sound(world)
      && made == |world.blocks|
      && forall p | p in world.parts :: p.State() == world.parts[p]
    }

    ghost predicate Recorded()
      reads this
    {
      Legal(Empty(), history) && world == Run(Empty(), history)
    }

    constructor ()
      ensures Valid() && world == Empty() && history == []
    {
      made, history, world := 0, [], Empty();
    }

    method Malloc(ghost bytes: seq<bv8>) returns (b: Block)
      requires made == |world.blocks|
      modifies this`made, this`world
      ensures b == |old(world).blocks| && world == Allocated(old(world), Allocator.Malloc, bytes)
      ensures made == |world.blocks|
    {
      b := made;
      made := made + 1;
      world := Allocated(world, Allocator.Malloc, bytes);
    }

    /** `nn_allocmsg`, which gives no block when there is no memory. */
    method AllocMsg(ghost bytes: seq<bv8>, available: bool) returns (b: Option<Block>)
      requires made == |world.blocks|
      modifies this`made, this`world
      ensures b == if available then Some(|old(world).blocks|) else None
      ensures world == if available then Allocated(old(world), NnAllocMsg, bytes) else old(world)
      ensures made == |world.blocks|
    {
      if !available {
        return None;
      }
      b := Some(made);
      made := made + 1;
      world := Allocated(world, NnAllocMsg, bytes);
    }

    method Free(b: Block)
      requires Live(world, b, Allocator.Malloc)
      modifies this`world
      ensures world == Deallocated(old(world), b, Allocator.Malloc)
    {
      world := Fated(world, b, Freed);
    }

    /** `nn_freemsg` on a message that nanomsg allocated. */
    method FreeMsg(b: Block) returns (result: int)
      requires Live(world, b, NnAllocMsg)
      modifies this`world
      ensures world == Deallocated(old(world), b, NnAllocMsg) && result == 0
    {
      world := Fated(world, b, Freed);
      result := 0;
    }

    /** A message that nanomsg allocated and handed to its caller. */
    method Receive(ghost bytes: seq<bv8>) returns (b: Block)
      requires Valid()
      modifies this
      ensures Valid() && b == |old(world).blocks| && world == Step(old(world), Op.Receive(bytes))
    {
      hide Sound, Legal, Run;
      b := made;
      made := made + 1;
      world := Step(world, Op.Receive(bytes));
      Record(Op.Receive(bytes), old(world));
    }

    /** The caller frees a block it answers for, with `free` or with `nn_freemsg`. */
    method Discard(b: Block, how: Allocator)
      requires Valid() && Enabled(world, Op.Discard(b, how))
      modifies this
      ensures Valid() && world == Step(old(world), Op.Discard(b, how))
    {
      hide Sound, Legal, Run;
      world := Step(world, Op.Discard(b, how));
      Record(Op.Discard(b, how), old(world));
    }

    /** Nanomsg takes over a block that the caller has given it. */
    ghost method Consume(b: Block)
      requires Valid() && CanWrap(world, b)
      modifies this`world, this`history
      ensures Valid() && world == Step(old(world), Op.Consume(b))
    {
      hide Sound, Legal, Run;
      world := Step(world, Op.Consume(b));
      Record(Op.Consume(b), old(world));
    }

    /** Records an operation whose effect on the ledger has just been carried out. */
    ghost method Record(op: Op<Part>, before: World<Part>)
      requires Legal(Empty(), history) && before == Run(Empty(), history) && Sound(before)
      requires Enabled(before, op) && world == Step(before, op)
      modifies this`history
      ensures history == old(history) + [op] && Recorded() && Sound(world)
    {
      RunNext(Empty(), history, op);
      StepKeepsSound(before, op);
      history := history + [op];
    }
  }

  /** The blocks with another fate for `b`, if it is one. */
  function Changed(blocks: seq<Record>, b: Option<Block>, fate: Fate): (r: seq<Record>)
    ensures |r| == |blocks|
    ensures forall c | 0 <= c < |r| ::
              r[c] == if b == Some(c) then Record(blocks[c].allocator, fate, blocks[c].bytes) else blocks[c]
  {
    seq(|blocks|, c requires 0 <= c < |blocks| => if b == Some(c) then blocks[c].(fate := fate) else blocks[c])
  }

  lemma AssignedParts<P>(w: World<P>, p: P, from: P)
    requires p in w.parts && from in w.parts
    ensures var v := Step(w, Op.Assign(p, from));
            && |v.blocks| == |w.blocks|
            && v.parts == w.parts[from := w.parts[from].(msg := None)][p := w.parts[from]]
  {
  }

  class Part {
    var msg: Option<Block>
    var size: nat
    var malloc: bool

    ghost function State(): PartState
      reads this
    {
      PartState(msg, size, malloc)
    }

    /** A part with its own copy of `data`. */
    constructor Copy(heap: Heap, data: seq<bv8>)
      requires heap.Valid()
      modifies heap
      ensures heap.Valid() && Enabled(old(heap.world), Fill(this, data))
      ensures heap.world == Step(old(heap.world), Fill(this, data))
      ensures heap.history == old(heap.history) + [Fill(this, data)]
      ensures msg == Some(|old(heap.world).blocks|) && size == |data| && malloc
      ensures heap.world.blocks == old(heap.world).blocks + [BufferLedger.Record(Allocator.Malloc, InUse, data)]
    {
      hide Sound, Legal, Run;
      malloc, size := true, |data|;
      msg := None;
      new;
      var b := heap.Malloc(data);
      msg := Some(b);
      heap.world := Made(heap.world, this, State());
      heap.Record(Fill(this, data), old(heap.world));
    }

    /** A part with a buffer of `size` bytes, whatever they are. */
    constructor Buffer(heap: Heap, size: nat, ghost bytes: seq<bv8>)
      requires heap.Valid() && |bytes| == size
      modifies heap
      ensures heap.Valid() && Enabled(old(heap.world), Fill(this, bytes))
      ensures heap.world == Step(old(heap.world), Fill(this, bytes))
      ensures heap.history == old(heap.history) + [Fill(this, bytes)]
      ensures msg == Some(|old(heap.world).blocks|) && this.size == size && malloc
    {
      hide Sound, Legal, Run;
      this.size, malloc := size, true;
      msg := None;
      new;
      var b := heap.Malloc(bytes);
      msg := Some(b);
      heap.world := Made(heap.world, this, State());
      heap.Record(Fill(this, bytes), old(heap.world));
    }

    /** A part with a message of nanomsg's. */
    constructor Message(heap: Heap, available: bool, ghost bytes: seq<bv8>)
      requires heap.Valid()
      modifies heap
      ensures heap.Valid() && Enabled(old(heap.world), Allocate(this, bytes, available))
      ensures heap.world == Step(old(heap.world), Allocate(this, bytes, available))
      ensures heap.history == old(heap.history) + [Allocate(this, bytes, available)]
      ensures (msg.Some? <==> available) && size == NN_MSG && !malloc
      ensures available ==>
                heap.world.blocks == old(heap.world).blocks + [BufferLedger.Record(NnAllocMsg, InUse, bytes)]
    {
      hide Sound, Legal, Run;
      size, malloc := NN_MSG, false;
      msg := None;
      new;
      msg := heap.AllocMsg(bytes, available);
      heap.world := Made(heap.world, this, State());
      heap.Record(Allocate(this, bytes, available), old(heap.world));
    }

    /** A part around an existing pointer, not copied. */
    constructor Wrap(heap: Heap, ptr: Option<Block>, size: nat)
      requires heap.Valid() && (ptr.Some? ==> CanWrap(heap.world, ptr.value))
      modifies heap
      ensures heap.Valid() && Enabled(old(heap.world), Op.Wrap(this, ptr, size))
      ensures heap.world == Step(old(heap.world), Op.Wrap(this, ptr, size))
      ensures heap.history == old(heap.history) + [Op.Wrap(this, ptr, size)]
      ensures msg == ptr && this.size == size && !malloc
    {
      hide Sound, Legal, Run;
      msg, this.size, malloc := ptr, size, false;
      new;
      heap.world := Made(Dropped(heap.world, ptr, InUse), this, State());
      heap.Record(Op.Wrap(this, ptr, size), old(heap.world));
    }

    /** Takes the pointer out of the part. */
    method TakePointer() returns (taken: Option<Block>)
      modifies this`msg
      ensures taken == old(msg) && msg == None
    {
      taken := msg;
      msg := None;
    }

    constructor Move(heap: Heap, other: Part)
      requires heap.Valid() && other in heap.world.parts
      modifies heap, other`msg
      ensures heap.Valid() && Enabled(old(heap.world), Op.Move(this, other))
      ensures heap.world == Step(old(heap.world), Op.Move(this, other))
      ensures heap.history == old(heap.history) + [Op.Move(this, other)]
      ensures State() == old(other.State()) && other.msg == None && heap.world.blocks == old(heap.world).blocks
    {
      hide Sound, Legal, Run;
      msg := None;
      size, malloc := other.size, other.malloc;
      new;
      msg := other.TakePointer();
      size := other.size;
      malloc := other.malloc;
      heap.world := Made(Made(heap.world, other, other.State()), this, State());
      heap.Record(Op.Move(this, other), old(heap.world));
    }

    method Assign(heap: Heap, other: Part)
      requires heap.Valid() && this in heap.world.parts && other in heap.world.parts
      modifies heap, this, other`msg
      ensures heap.Valid() && heap.world == Step(old(heap.world), Op.Assign(this, other))
      ensures heap.history == old(heap.history) + [Op.Assign(this, other)]
      ensures State() == old(other.State()) && (other != this ==> other.msg == None)
      ensures heap.world.blocks
              == Changed(old(heap.world).blocks, if other == this then None else old(msg), Overwritten)
    {
      hide Sound, Legal, Run;
      AssignedParts(heap.world, this, other);
      var taken := other.TakePointer();
      msg := taken;
      size := other.size;
      malloc := other.malloc;
      heap.world := Step(heap.world, Op.Assign(this, other));
      heap.Record(Op.Assign(this, other), old(heap.world));
    }

    /** Gives the pointer to the caller, who answers for it from now on. */
    method Release(heap: Heap) returns (taken: Option<Block>)
      requires heap.Valid() && this in heap.world.parts
      modifies heap, this`msg
      ensures heap.Valid() && heap.world == Step(old(heap.world), Op.Release(this)) && taken == old(msg)
      ensures heap.history == old(heap.history) + [Op.Release(this)]
      ensures msg == None && heap.world.blocks == Changed(old(heap.world).blocks, taken, GivenUp)
    {
      hide Sound, Legal, Run;
      taken := TakePointer();
      heap.world := Made(Dropped(heap.world, taken, GivenUp), this, State());
      heap.Record(Op.Release(this), old(heap.world));
    }

    method Destroy(heap: Heap)
      requires heap.Valid() && this in heap.world.parts
      modifies heap, this`msg
      ensures heap.Valid() && heap.world == Step(old(heap.world), Op.Destroy(this))
      ensures heap.history == old(heap.history) + [Op.Destroy(this)]
      ensures msg == None && this !in heap.world.parts
      ensures heap.world.blocks == Changed(old(heap.world).blocks, old(msg), Freed)
    {
      if msg != None {
        assert OwnsWell(heap.world, heap.world.parts[this]);
        if !malloc {
          var result := heap.FreeMsg(msg.value);
        } else {
          heap.Free(msg.value);
        }
        msg := None;
      }
      hide Sound, Legal, Run;
      heap.world := heap.world.(parts := heap.world.parts - {this});
      heap.Record(Op.Destroy(this), old(heap.world));
    }
  }
}
