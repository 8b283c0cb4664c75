/** Messages as growing vectors of parts, the header that describes one to nanomsg, and sending. */
module Messages {
  import opened Basics
  import opened BufferLedger
  import opened MessageBuffers
  import opened PartSizes

  datatype IoVec = IoVec(base: Option<Block>, len: nat)

  /** A message header and its vector, both from `malloc`. */
  class Header {
    const block: Block
    const vector: Block
    const iov: array<IoVec>

    constructor (block: Block, vector: Block, iov: array<IoVec>)
      ensures this.block == block && this.vector == vector && this.iov == iov
    {
      this.block, this.vector, this.iov := block, vector, iov;
    }

    /** The deleter of the header: first the vector, then the header itself. */
    method Free(heap: Heap)
      requires heap.Valid() && block in heap.world.headers && heap.world.headers[block] == vector
      modifies heap
      ensures heap.Valid() && heap.world == Step(old(heap.world), CloseHeader(block))
    {
      heap.Free(vector);
      heap.Free(block);
      hide Sound, Legal, Run;
      heap.world := heap.world.(headers := heap.world.headers - {block});
      heap.Record(CloseHeader(block), old(heap.world));
    }
  }

  /** The records of the blocks held by `held` come to the fate `fate`; all others stay. */
  function Ended(blocks: seq<Record>, held: seq<Option<Block>>, fate: Fate): (r: seq<Record>)
    ensures |r| == |blocks|
    decreases |held|
  {
    if held == [] then blocks
    else
      var before := Ended(blocks, held[..|held| - 1], fate);
      var b := held[|held| - 1];
      if b.Some? && b.value < |before| then before[b.value := before[b.value].(fate := fate)] else before
  }

  ghost predicate AllAlive<P>(w: World<P>, ps: seq<P>) {
    forall i | 0 <= i < |ps| :: ps[i] in w.parts
  }

  /** The pointers of the parts `ps`, in order. */
  ghost predicate Holding<P>(w: World<P>, ps: seq<P>, held: seq<Option<Block>>) {
    |held| == |ps| && forall i | 0 <= i < |ps| :: ps[i] in w.parts && w.parts[ps[i]].msg == held[i]
  }

  /** The headers, and the parts other than `ps`, are as they were. */
  ghost predicate OthersKept<P>(was: World<P>, w: World<P>, ps: seq<P>) {
    && w.headers == was.headers
    && forall q | q in was.parts && q !in ps :: q in w.parts && w.parts[q] == was.parts[q]
  }

  lemma {:induction false} EndingNothing(blocks: seq<Record>, held: seq<Option<Block>>, fate: Fate)
    requires forall i | 0 <= i < |held| :: held[i] == None
    ensures Ended(blocks, held, fate) == blocks
    decreases |held|
  {
    if held != [] {
      EndingNothing(blocks, held[..|held| - 1], fate);
    }
  }

  /** The first `|to|` parts of `from` have been moved into `to`. */
  ghost predicate Moved<P>(was: World<P>, w: World<P>, from: seq<P>, to: seq<P>)
    requires |to| <= |from| && AllAlive(was, from)
  {
    && NoRepeats(to)
    && (forall i | 0 <= i < |to| :: to[i] in w.parts && to[i] !in was.parts && w.parts[to[i]] == was.parts[from[i]])
    && (forall i | 0 <= i < |from| ::
          && from[i] in w.parts
          && w.parts[from[i]] == if i < |to| then was.parts[from[i]].(msg := None) else was.parts[from[i]])
    && w.blocks == was.blocks
    && OthersKept(was, w, from)
    && forall q | q in w.parts :: q in was.parts || q in to
  }

  lemma MovedNext<P>(was: World<P>, w: World<P>, from: seq<P>, to: seq<P>, p: P)
    requires |to| < |from| && AllAlive(was, from) && NoRepeats(from) && Moved(was, w, from, to)
    requires p !in w.parts && p !in was.parts
    ensures Enabled(w, Op.Move(p, from[|to|])) && Moved(was, Step(w, Op.Move(p, from[|to|])), from, to + [p])
  {
  }

  /** Moves each part of `from` into a new one. */
  method MoveAll(heap: Heap, from: seq<Part>) returns (to: seq<Part>)
    requires heap.Valid() && NoRepeats(from) && AllAlive(heap.world, from)
    modifies heap, from
    ensures heap.Valid() && |to| == |from| && Moved(old(heap.world), heap.world, from, to)
    ensures forall p | p in to :: fresh(p)
  {
    to := [];
    while |to| < |from|
      invariant heap.Valid() && |to| <= |from| && Moved(old(heap.world), heap.world, from, to)
      invariant forall p | p in to :: fresh(p)
    {
      hide Sound, Legal, Run;
      ghost var before := heap.world;
      var moved := new Part.Move(heap, from[|to|]);
      MovedNext(old(heap.world), before, from, to, moved);
      to := to + [moved];
    }
  }

  /** The first `i` parts of `ps` have been destroyed. */
  ghost predicate Gone<P>(was: World<P>, w: World<P>, ps: seq<P>, held: seq<Option<Block>>, i: nat)
    requires i <= |ps| == |held|
  {
    && w.blocks == Ended(was.blocks, held[..i], Freed)
    && (forall j | i <= j < |ps| :: ps[j] in w.parts && w.parts[ps[j]].msg == held[j])
    && OthersKept(was, w, ps)
    && w.parts.Keys <= was.parts.Keys
    && forall j | 0 <= j < i :: ps[j] !in w.parts
  }

  lemma GoneNext<P>(was: World<P>, w: World<P>, ps: seq<P>, held: seq<Option<Block>>, i: nat)
    requires i < |ps| == |held| && NoRepeats(ps) && Gone(was, w, ps, held, i)
    requires Sound(w)
    ensures Enabled(w, Op.Destroy(ps[i])) && Gone(was, Step(w, Op.Destroy(ps[i])), ps, held, i + 1)
  {
    assert OwnsWell(w, w.parts[ps[i]]);
    assert held[..i + 1][..i] == held[..i];
  }

  /** Destroys each part. */
  method DestroyAll(heap: Heap, ps: seq<Part>, ghost held: seq<Option<Block>>)
    requires heap.Valid() && NoRepeats(ps) && Holding(heap.world, ps, held)
    modifies heap, ps
    ensures heap.Valid() && Gone(old(heap.world), heap.world, ps, held, |ps|)
  {
    var i := 0;
    while i < |ps|
      invariant 0 <= i <= |ps|
      invariant heap.Valid() && Gone(old(heap.world), heap.world, ps, held, i)
    {
      hide Legal, Run;
      GoneNext(old(heap.world), heap.world, ps, held, i);
      ps[i].Destroy(heap);
      i := i + 1;
    }
  }

  /** The first `i` parts of `ps` have released what they held. */
  ghost predicate LetGo<P>(was: World<P>, w: World<P>, ps: seq<P>, held: seq<Option<Block>>, i: nat)
    requires i <= |ps| == |held|
  {
    && w.blocks == Ended(was.blocks, held[..i], GivenUp)
    && (forall j | 0 <= j < |ps| :: ps[j] in w.parts && w.parts[ps[j]].msg == if j < i then None else held[j])
    && OthersKept(was, w, ps)
    && w.parts.Keys <= was.parts.Keys
  }

  lemma LetGoNext<P>(was: World<P>, w: World<P>, ps: seq<P>, held: seq<Option<Block>>, i: nat)
    requires i < |ps| == |held| && NoRepeats(ps) && LetGo(was, w, ps, held, i)
    requires Sound(w)
    ensures Enabled(w, Op.Release(ps[i])) && LetGo(was, Step(w, Op.Release(ps[i])), ps, held, i + 1)
  {
    assert OwnsWell(w, w.parts[ps[i]]);
    assert held[..i + 1][..i] == held[..i];
  }

  lemma NoneLetGo<P>(w: World<P>, ps: seq<P>, held: seq<Option<Block>>)
    requires Holding(w, ps, held)
    ensures LetGo(w, w, ps, held, 0)
  {
  }

  lemma LetGoHoldNothing<P>(was: World<P>, w: World<P>, ps: seq<P>, held: seq<Option<Block>>)
    requires |ps| == |held| && LetGo(was, w, ps, held, |ps|)
    ensures Holding(w, ps, seq(|ps|, _ => None))
  {
  }

  /** Releases what each part holds. */
  method ReleaseAll(heap: Heap, ps: seq<Part>, ghost held: seq<Option<Block>>)
    requires heap.Valid() && NoRepeats(ps) && Holding(heap.world, ps, held)
    modifies heap, ps
    ensures heap.Valid() && LetGo(old(heap.world), heap.world, ps, held, |ps|)
  {
    NoneLetGo(heap.world, ps, held);
    var i := 0;
    while i < |ps|
      invariant 0 <= i <= |ps|
      invariant heap.Valid() && LetGo(old(heap.world), heap.world, ps, held, i)
    {
      hide Legal, Run;
      LetGoNext(old(heap.world), heap.world, ps, held, i);
      var taken := ps[i].Release(heap);
      i := i + 1;
    }
  }

  /** The parts `ps`, which held `held`, no longer exist, and their blocks are given up, not freed. */
  ghost predicate SentOff<P>(was: World<P>, w: World<P>, ps: seq<P>, held: seq<Option<Block>>) {
    && w.blocks == Ended(was.blocks, held, GivenUp)
    && OthersKept(was, w, ps)
    && w.parts.Keys <= was.parts.Keys
    && forall j | 0 <= j < |ps| :: ps[j] !in w.parts
  }

  lemma LetGoThenGone<P>(was: World<P>, mid: World<P>, w: World<P>, ps: seq<P>, held: seq<Option<Block>>)
    requires |ps| == |held| && LetGo(was, mid, ps, held, |ps|) && Gone(mid, w, ps, seq(|ps|, _ => None), |ps|)
    ensures SentOff(was, w, ps, held)
  {
    var nothing := seq(|ps|, _ => None);
    assert nothing[..|ps|] == nothing && held[..|ps|] == held;
    EndingNothing(mid.blocks, nothing, Freed);
  }

  /** The parts of `from` have been moved into `to` and no longer exist; no block has changed. */
  ghost predicate Reallocated<P>(was: World<P>, w: World<P>, from: seq<P>, to: seq<P>)
    requires AllAlive(was, from)
  {
    && |to| == |from| && NoRepeats(to)
    && (forall i | 0 <= i < |to| :: to[i] in w.parts && to[i] !in was.parts && w.parts[to[i]] == was.parts[from[i]])
    && (forall i | 0 <= i < |from| :: from[i] !in w.parts)
    && w.blocks == was.blocks
    && OthersKept(was, w, from)
    && forall q | q in w.parts :: q in was.parts || q in to
  }

  lemma MovedHoldNothing<P>(was: World<P>, w: World<P>, from: seq<P>, to: seq<P>)
    requires |to| == |from| && AllAlive(was, from) && Moved(was, w, from, to)
    ensures Holding(w, from, seq(|from|, _ => None))
  {
  }

  lemma MovedThenGone<P>(was: World<P>, moved: World<P>, w: World<P>, from: seq<P>, to: seq<P>)
    requires AllAlive(was, from) && |to| == |from| && Moved(was, moved, from, to)
    requires Gone(moved, w, from, seq(|from|, _ => None), |from|)
    ensures Reallocated(was, w, from, to)
  {
    var nothing := seq(|from|, _ => None);
    assert nothing[..|from|] == nothing;
    EndingNothing(moved.blocks, nothing, Freed);
    forall i | 0 <= i < |to| ensures to[i] !in from {}
  }

  /** What a vector does when it grows: every part is moved to new storage, then the old parts are
      destroyed. */
  method Reallocate(heap: Heap, from: seq<Part>) returns (to: seq<Part>)
    requires heap.Valid() && NoRepeats(from) && AllAlive(heap.world, from)
    modifies heap, from
    ensures heap.Valid() && Reallocated(old(heap.world), heap.world, from, to)
    ensures forall p | p in to :: fresh(p)
  {
    hide Sound, Legal, Run, Moved, Gone;
    ghost var was := heap.world;
    to := MoveAll(heap, from);
    ghost var moved := heap.world;
    MovedHoldNothing(was, moved, from, to);
    DestroyAll(heap, from, seq(|from|, _ => None));
    MovedThenGone(was, moved, heap.world, from, to);
  }

  /** The state of `q` once `p` has been moved from. */
  function MovedFrom<P>(w: World<P>, p: P, q: P): PartState
    requires q in w.parts
  {
    if q == p then w.parts[q].(msg := None) else w.parts[q]
  }

  /** The parts `qs` are `ps` and then `p`, with the same blocks, sizes and flags; what was `p`, which may
      be one of `ps`, holds nothing. */
  ghost predicate Added<P>(was: World<P>, w: World<P>, ps: seq<P>, p: P, qs: seq<P>)
    requires p in was.parts && AllAlive(was, ps)
  {
    && |qs| == |ps| + 1
    && NoRepeats(qs)
    && (forall i | 0 <= i < |qs| ::
          qs[i] in w.parts && w.parts[qs[i]] == if i < |ps| then MovedFrom(was, p, ps[i]) else was.parts[p])
    && (p !in ps ==> p !in qs && p in w.parts && w.parts[p] == was.parts[p].(msg := None))
    && w.blocks == was.blocks
    && OthersKept(was, w, ps + [p])
    && forall q | q in w.parts :: q in was.parts || q in qs
  }

  lemma AddedAlive<P>(was: World<P>, w: World<P>, ps: seq<P>, p: P, qs: seq<P>)
    requires p in was.parts && AllAlive(was, ps) && Added(was, w, ps, p, qs)
    ensures |qs| == |ps| + 1 && NoRepeats(qs) && AllAlive(w, qs)
    ensures p !in ps ==> p in w.parts && w.parts[p].msg == None && p !in qs
  {
  }

  lemma MovedAlive<P>(was: World<P>, ps: seq<P>, p: P, last: P)
    requires p in was.parts && AllAlive(was, ps) && last !in was.parts
    ensures AllAlive(Step(was, Op.Move(last, p)), ps)
  {
  }

  lemma AddedInPlace<P>(was: World<P>, ps: seq<P>, p: P, last: P)
    requires p in was.parts && AllAlive(was, ps) && NoRepeats(ps) && last !in was.parts
    ensures Added(was, Step(was, Op.Move(last, p)), ps, p, ps + [last])
  {
  }

  lemma GrownParts<P>(was: World<P>, w: World<P>, ps: seq<P>, p: P, to: seq<P>, last: P)
    requires p in was.parts && AllAlive(was, ps) && last !in was.parts
    requires var first := Step(was, Op.Move(last, p)); AllAlive(first, ps) && Reallocated(first, w, ps, to)
    ensures var qs := to + [last];
            && |to| == |ps| && NoRepeats(qs)
            && forall i | 0 <= i < |qs| ::
                 qs[i] in w.parts && w.parts[qs[i]] == if i < |ps| then MovedFrom(was, p, ps[i]) else was.parts[p]
  {
    hide Step;
    MoveIs(was, p, last);
    var first := Step(was, Op.Move(last, p));
    assert last in w.parts && w.parts[last] == was.parts[p] by {
      assert last !in ps && first.parts[last] == was.parts[p];
    }
    forall i | 0 <= i < |to|
      ensures to[i] in w.parts && to[i] !in first.parts && w.parts[to[i]] == MovedFrom(was, p, ps[i])
    {
      assert ps[i] != last;
    }
  }

  lemma GrownOthers<P>(was: World<P>, w: World<P>, ps: seq<P>, p: P, to: seq<P>, last: P)
    requires p in was.parts && AllAlive(was, ps) && last !in was.parts
    requires var first := Step(was, Op.Move(last, p)); AllAlive(first, ps) && Reallocated(first, w, ps, to)
    ensures w.blocks == was.blocks && OthersKept(was, w, ps + [p])
    ensures forall q | q in w.parts :: q in was.parts || q in to + [last]
    ensures p !in ps ==> p !in to + [last] && p in w.parts && w.parts[p] == was.parts[p].(msg := None)
  {
    hide Step;
    MoveIs(was, p, last);
    var first := Step(was, Op.Move(last, p));
    forall q | q in was.parts && q !in ps + [p] ensures q in w.parts && w.parts[q] == was.parts[q] {
      assert q !in ps && q != p && q != last;
    }
    forall q | q in w.parts ensures q in was.parts || q in to + [last] {
      assert q in first.parts || q in to;
    }
    assert p in first.parts && first.parts[p] == was.parts[p].(msg := None);
  }

  lemma AddedByGrowth<P>(was: World<P>, w: World<P>, ps: seq<P>, p: P, to: seq<P>, last: P)
    requires p in was.parts && AllAlive(was, ps) && last !in was.parts
    requires var first := Step(was, Op.Move(last, p)); AllAlive(first, ps) && Reallocated(first, w, ps, to)
    ensures Added(was, w, ps, p, to + [last])
  {
    GrownParts(was, w, ps, p, to, last);
    GrownOthers(was, w, ps, p, to, last);
    hide NoRepeats, OthersKept, Reallocated, MovedFrom, AllAlive, Step;
  }

  lemma MoveIs<P>(w: World<P>, p: P, last: P)
    requires p in w.parts && last !in w.parts
    ensures Step(w, Op.Move(last, p)) == w.(parts := w.parts[p := w.parts[p].(msg := None)][last := w.parts[p]])
  {
  }

  /** The parts `qs` are `ps` and then a part with a block of its own that holds `data`. */
  ghost predicate Written<P>(was: World<P>, w: World<P>, ps: seq<P>, qs: seq<P>, data: seq<bv8>)
    requires AllAlive(was, ps)
  {
    && |qs| == |ps| + 1
    && (forall i | 0 <= i < |qs| ::
          && qs[i] in w.parts
          && w.parts[qs[i]] == if i < |ps| then was.parts[ps[i]] else PartState(Some(|was.blocks|), |data|, true))
    && w.blocks == was.blocks + [Record(Malloc, InUse, data)]
    && OthersKept(was, w, ps)
    && forall q | q in w.parts :: q in was.parts || q in qs
  }

  lemma CopyAdded<P>(was: World<P>, added: World<P>, ps: seq<P>, p: P, qs: seq<P>, data: seq<bv8>)
    requires AllAlive(was, ps) && p !in was.parts
    requires Added(Step(was, Fill(p, data)), added, ps, p, qs)
    ensures p in added.parts && Written(was, Step(added, Op.Destroy(p)), ps, qs, data)
  {
  }

  /** Exactly the blocks held come to the fate; every record else stays. */
  lemma {:induction false} EndedExactly(blocks: seq<Record>, held: seq<Option<Block>>, fate: Fate, b: Block)
    requires b < |blocks|
    ensures Ended(blocks, held, fate)[b] == if Some(b) in held then blocks[b].(fate := fate) else blocks[b]
    decreases |held|
  {
    if held != [] {
      EndedExactly(blocks, held[..|held| - 1], fate, b);
      assert held == held[..|held| - 1] + [held[|held| - 1]];
    }
  }

  /** An entry for a block tells nanomsg the number of its bytes, or, of a message that nanomsg allocated and
      nobody wrapped again, the size that says so. */
  ghost predicate ShowsRight(w: World<Part>, ops: seq<Op<Part>>, v: IoVec) {
    v.base.Some? ==>
      && v.base.value < |w.blocks|
      && (w.blocks[v.base.value].allocator == Malloc ==> v.len == |w.blocks[v.base.value].bytes|)
      && (w.blocks[v.base.value].allocator == NnAllocMsg ==>
            match LastWrap(ops, v.base.value) case None => v.len == NN_MSG case Some(size) => v.len == size)
  }

  lemma ShownRight(heap: Heap, p: Part)
    requires heap.Valid() && p in heap.world.parts
    ensures ShowsRight(heap.world, heap.history, IoVec(p.msg, p.size))
  {
    hide Sound, Legal, Run, LastWrap;
    if p.msg.Some? {
      SizesAre(heap.history, p);
    }
  }

  class Message {
    var parts: seq<Part>
    var capacity: nat

    ghost predicate Valid(heap: Heap)
      reads this, heap
    {
      && |parts| <= capacity
      && NoRepeats(parts)
      && forall i | 0 <= i < |parts| :: parts[i] in heap.world.parts
    }

    constructor ()
      ensures parts == [] && capacity == 0
    {
      parts, capacity := [], 0;
    }

    /** Moves `p`, which may be a part of the message itself, to the end of the vector. A full vector moves
        every part to new storage first and destroys what is left of the old ones. Every part keeps its
        block, size and flag, and no block is allocated, freed or dropped. */
    method AddPart(heap: Heap, p: Part)
      requires heap.Valid() && Valid(heap) && p in heap.world.parts
      modifies this, heap, p, parts
      ensures heap.Valid() && Valid(heap) && Added(old(heap.world), heap.world, old(parts), p, parts)
      ensures forall q | q in parts && q !in old(parts) :: fresh(q)
    {
      hide Sound, Legal, Run, Added, Reallocated, Step;
      ghost var was := heap.world;
      var last := new Part.Move(heap, p);
      MovedAlive(was, parts, p, last);
      if |parts| == capacity {
        var grown := Reallocate(heap, parts);
        AddedByGrowth(was, heap.world, parts, p, grown, last);
        parts := grown + [last];
        capacity := if capacity == 0 then 1 else 2 * capacity;
      } else {
        AddedInPlace(was, parts, p, last);
        parts := parts + [last];
      }
      AddedAlive(was, heap.world, old(parts), p, parts);
    }

    /** Adds a part with a copy of `data`. */
    method Write(heap: Heap, data: seq<bv8>)
      requires heap.Valid() && Valid(heap)
      modifies this, heap, parts
      ensures heap.Valid() && Valid(heap) && |parts| == |old(parts)| + 1
      ensures Written(old(heap.world), heap.world, old(parts), parts, data)
      ensures forall q | q in parts && q !in old(parts) :: fresh(q)
    {
      hide Sound, Legal, Run, Added;
      ghost var was := heap.world;
      var p := new Part.Copy(heap, data);
      ghost var copied := heap.world;
      AddPart(heap, p);
      ghost var added := heap.world;
      AddedAlive(copied, added, old(parts), p, parts);
      p.Destroy(heap);
      CopyAdded(was, added, old(parts), p, parts, data);
    }

    /** The vector of the header. */
    method ListParts() returns (iov: array<IoVec>)
      ensures fresh(iov) && iov.Length == |parts|
      ensures forall i | 0 <= i < |parts| :: iov[i] == IoVec(parts[i].msg, parts[i].size)
    {
      iov := new IoVec[|parts|](_ => IoVec(None, 0));
      var i := 0;
      while i < |parts|
        invariant 0 <= i <= |parts|
        invariant forall j | 0 <= j < i :: iov[j] == IoVec(parts[j].msg, parts[j].size)
      {
        iov[i] := IoVec(parts[i].msg, parts[i].size);
        i := i + 1;
      }
    }

    /** The header lists the parts in order; its two blocks are the only ones allocated. */
    method GenHeader(heap: Heap) returns (hdr: Header)
      requires heap.Valid() && Valid(heap)
      modifies heap
      ensures heap.Valid() && Valid(heap) && heap.world == Step(old(heap.world), OpenHeader)
      ensures hdr.block in heap.world.headers && heap.world.headers[hdr.block] == hdr.vector
      ensures hdr.block == |old(heap.world).blocks|
      ensures hdr.iov.Length == |parts|
      ensures forall i | 0 <= i < |parts| :: hdr.iov[i] == IoVec(parts[i].msg, parts[i].size)
      ensures forall i | 0 <= i < |parts| :: ShowsRight(heap.world, heap.history, hdr.iov[i])
    {
      hide Sound, Legal, Run;
      var block := heap.Malloc([]);
      var vector := heap.Malloc([]);
      var iov := ListParts();
      hdr := new Header(block, vector, iov);
      heap.world := heap.world.(headers := heap.world.headers[block := vector]);
      heap.Record(OpenHeader, old(heap.world));
      forall i | 0 <= i < |parts| ensures ShowsRight(heap.world, heap.history, hdr.iov[i]) {
        ShownRight(heap, parts[i]);
      }
    }

    /** Gives up what the parts hold and empties the message. */
    method Release(heap: Heap, ghost held: seq<Option<Block>>)
      requires heap.Valid() && Valid(heap) && Holding(heap.world, parts, held)
      modifies this`parts, heap, parts
      ensures heap.Valid() && parts == []
      ensures SentOff(old(heap.world), heap.world, old(parts), held)
    {
      hide Sound, Legal, Run, LetGo, Gone;
      ReleaseAll(heap, parts, held);
      ghost var released := heap.world;
      LetGoHoldNothing(old(heap.world), released, parts, held);
      DestroyAll(heap, parts, seq(|parts|, _ => None));
      LetGoThenGone(old(heap.world), released, heap.world, parts, held);
      parts := [];
    }

    /** The parts go, each freeing what it holds. */
    method Destroy(heap: Heap, ghost held: seq<Option<Block>>)
      requires heap.Valid() && Valid(heap) && Holding(heap.world, parts, held)
      modifies this`parts, heap, parts
      ensures heap.Valid() && parts == [] && Gone(old(heap.world), heap.world, old(parts), held, |held|)
    {
      DestroyAll(heap, parts, held);
      parts := [];
    }
  }

  datatype Outcome = Sent(bytes: int) | InternalException

  /** Blocks that nanomsg may keep of a message it has accepted: those it allocated itself. */
  ghost predicate MayTake<P>(w: World<P>, ps: seq<P>, held: seq<Option<Block>>, taken: seq<Option<Block>>)
    requires Holding(w, ps, held)
  {
    && |taken| == |held|
    && forall i | 0 <= i < |held| && taken[i].Some? ::
         taken[i] == held[i] && w.parts[ps[i]].size == NN_MSG && !w.parts[ps[i]].malloc
  }

  /** Sends a message: nanomsg is shown the parts and answers `nb`; then the header is freed, and
      the message is emptied whatever the answer. `shown` is what nanomsg saw. Of a message it accepts
      nanomsg takes over the blocks `taken`. */
  method SendMsg(heap: Heap, msg: Message, nb: int, ghost held: seq<Option<Block>>, ghost taken: seq<Option<Block>>)
    returns (r: Outcome, ghost shown: seq<IoVec>)
    requires heap.Valid() && msg.Valid(heap) && Holding(heap.world, msg.parts, held)
    requires MayTake(heap.world, msg.parts, held, taken)
    modifies msg`parts, heap, msg.parts
    ensures heap.Valid() && msg.parts == []
    ensures r == if nb == -1 then InternalException else Sent(nb)
    ensures |shown| == |held|
    ensures forall i | 0 <= i < |held| :: shown[i] == IoVec(held[i], old(heap.world).parts[old(msg.parts)[i]].size)
    ensures forall i | 0 <= i < |held| :: ShowsRight(old(heap.world), old(heap.history), shown[i])
    ensures var released := Ended(old(heap.world).blocks + [Record(Malloc, Freed, []), Record(Malloc, Freed, [])],
                                  held, GivenUp);
            heap.world.blocks == if nb == -1 then released else Ended(released, taken, Consumed)
    ensures OthersKept(old(heap.world), heap.world, old(msg.parts))
    ensures heap.world.parts.Keys <= old(heap.world).parts.Keys
    ensures forall j | 0 <= j < |held| :: old(msg.parts)[j] !in heap.world.parts
  {
    hide Sound, Legal, Run, Ended, ShowsRight;
    ghost var was, ps := heap.world, msg.parts;
    forall p | p in ps ensures ShowsRight(was, heap.history, IoVec(p.msg, p.size)) {
      ShownRight(heap, p);
    }
    TakenAreReleased(was, [Record(Malloc, Freed, []), Record(Malloc, Freed, [])], ps, held, taken);
    var hdr := msg.GenHeader(heap);
    shown := hdr.iov[..];
    hdr.Free(heap);
    HeaderCycle(was);
    msg.Release(heap, held);
    if nb == -1 {
      r := InternalException;
    } else {
      r := Sent(nb);
      ConsumeAll(heap, taken);
    }
  }

  /** The blocks of `taken` from number `from` on are different blocks that nanomsg may take over. */
  ghost predicate Takable(blocks: seq<Record>, taken: seq<Option<Block>>, from: nat) {
    && (forall i | from <= i < |taken| && taken[i].Some? ::
          && taken[i].value < |blocks| && blocks[taken[i].value].allocator == NnAllocMsg
          && blocks[taken[i].value].fate == GivenUp)
    && (forall i, j | from <= i < j < |taken| && taken[i].Some? :: taken[i] != taken[j])
  }

  lemma TakenAreReleased<P>(w: World<P>, extra: seq<Record>, ps: seq<P>, held: seq<Option<Block>>,
                            taken: seq<Option<Block>>)
    requires Sound(w) && NoRepeats(ps) && Holding(w, ps, held) && MayTake(w, ps, held, taken)
    ensures Takable(Ended(w.blocks + extra, held, GivenUp), taken, 0)
  {
    forall i | 0 <= i < |taken| && taken[i].Some?
      ensures taken[i].value < |w.blocks|
      ensures var r := Ended(w.blocks + extra, held, GivenUp)[taken[i].value];
              r.allocator == NnAllocMsg && r.fate == GivenUp
    {
      assert OwnsWell(w, w.parts[ps[i]]);
      assert held[i] in held;
      EndedExactly(w.blocks + extra, held, GivenUp, taken[i].value);
    }
  }

  /** Nanomsg takes over each block of `taken`. */
  ghost method ConsumeAll(heap: Heap, taken: seq<Option<Block>>)
    requires heap.Valid() && Takable(heap.world.blocks, taken, 0)
    modifies heap`world, heap`history
    ensures heap.Valid() && heap.world.parts == old(heap.world).parts
    ensures heap.world.headers == old(heap.world).headers
    ensures heap.world.blocks == Ended(old(heap.world).blocks, taken, Consumed)
  {
    hide Sound, Legal, Run;
    var i := 0;
    while i < |taken|
      invariant 0 <= i <= |taken|
      invariant heap.Valid() && heap.world.parts == old(heap.world).parts
      invariant heap.world.headers == old(heap.world).headers
      invariant heap.world.blocks == Ended(old(heap.world).blocks, taken[..i], Consumed)
      invariant Takable(heap.world.blocks, taken, i)
    {
      assert taken[..i + 1][..i] == taken[..i];
      if taken[i].Some? {
        heap.Consume(taken[i].value);
      }
      i := i + 1;
    }
    assert taken[..|taken|] == taken;
  }

  /** Receives a message of one part: nanomsg hands over a buffer of its own with `data`, which is copied
      into the part and then freed. `nb` is nanomsg's answer. */
  method RecvMsg(heap: Heap, nb: int, data: seq<bv8>) returns (r: Option<Message>)
    requires heap.Valid() && (nb != -1 ==> nb == |data|)
    modifies heap
    ensures heap.Valid() && (r == None <==> nb == -1)
    ensures nb == -1 ==> heap.world == old(heap.world)
    ensures nb != -1 ==>
              && fresh(r.value) && r.value.Valid(heap) && |r.value.parts| == 1
              && heap.world.parts[r.value.parts[0]] == PartState(Some(|old(heap.world).blocks| + 1), nb, true)
              && heap.world.blocks
                 == old(heap.world).blocks + [Record(NnAllocMsg, Freed, data), Record(Malloc, InUse, data)]
              && OthersKept(old(heap.world), heap.world, [])
  {
    hide Sound, Legal, Run;
    if nb == -1 {
      return None;
    }
    ghost var was := heap.world;
    var buf := heap.Receive(data);
    ghost var received := heap.world;
    var msg := new Message();
    msg.Write(heap, data);
    heap.Discard(buf, NnAllocMsg);
    r := Some(msg);
  }

  /** A header opened and closed leaves the parts and the other headers as they were, and two freed blocks. */
  lemma HeaderCycle<P>(w: World<P>)
    requires Sound(w)
    ensures var h := |w.blocks|;
            var begun := Step(w, OpenHeader);
            && h in begun.headers
            && var v := Step(begun, CloseHeader(h));
               && v.parts == w.parts && v.headers == w.headers && !v.faulted
               && v.blocks == w.blocks + [Record(Malloc, Freed, []), Record(Malloc, Freed, [])]
  {
    var h := |w.blocks|;
    assert h !in w.headers;
    assert (w.headers[h := h + 1]) - {h} == w.headers;
  }

  /** Whatever methods were called on parts and messages, in any order: every block allocated is freed,
      held by one part, part of a header, given up, overwritten, or consumed. */
  lemma {:induction false} HeapBalance(heap: Heap)
    requires heap.Valid()
    ensures heap.made == Accounting.Count(heap.world.blocks, Freed) + |Accounting.Holders(heap.world)|
                         + 2 * |heap.world.headers| + Accounting.Count(heap.world.blocks, GivenUp)
                         + Accounting.Count(heap.world.blocks, Overwritten)
                         + Accounting.Count(heap.world.blocks, Consumed)
  {
    hide Sound;
    Accounting.Balance(heap.history);
  }
}
