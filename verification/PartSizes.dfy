/** The sizes of parts: a part keeps the size it was made with, however often it is moved. */
module PartSizes {
  import opened Basics
  import opened BufferLedger
  import Accounting = BufferAccounting

  /** The size given with the last wrapping of `b`, if it was ever wrapped. */
  function LastWrap<P>(ops: seq<Op<P>>, b: Block): Option<nat> {
    if ops == [] then None
    else
      match ops[|ops| - 1]
      case Wrap(_, Some(c), size) => if c == b then Some(size) else LastWrap(ops[..|ops| - 1], b)
      case _ => LastWrap(ops[..|ops| - 1], b)
  }

  /** The size of a part that holds `b`: the bytes of a copy or a buffer, the size given with a pointer, and
      otherwise the size that stands for a message of nanomsg's. */
  function SizeOf<P>(w: World<P>, ops: seq<Op<P>>, b: Block): nat
    requires b < |w.blocks|
  {
    if w.blocks[b].allocator == Malloc then |w.blocks[b].bytes|
    else match LastWrap(ops, b) case None => NN_MSG case Some(size) => size
  }

  ghost predicate PartRight<P>(w: World<P>, ops: seq<Op<P>>, s: PartState) {
    s.msg.Some? ==>
      && s.msg.value < |w.blocks|
      && s.size == SizeOf(w, ops, s.msg.value)
      && (s.malloc <==> w.blocks[s.msg.value].allocator == Malloc)
  }

  ghost predicate SizesRight<P>(w: World<P>, ops: seq<Op<P>>) {
    && (forall p | p in w.parts :: PartRight(w, ops, w.parts[p]))
    && (forall b: Block | LastWrap(ops, b).Some? :: b < |w.blocks|)
  }

  lemma LastWrapNext<P>(ops: seq<Op<P>>, op: Op<P>, b: Block)
    ensures LastWrap(ops + [op], b)
            == if op.Wrap? && op.block == Some(b) then Some(op.size) else LastWrap(ops, b)
  {
    assert (ops + [op])[..|ops|] == ops;
  }

  lemma PartStays<P>(w: World<P>, ops: seq<Op<P>>, op: Op<P>, v: World<P>, s: PartState)
    requires PartRight(w, ops, s) && Enabled(w, op) && v == Step(w, op)
    requires op.Wrap? && s.msg.Some? ==> op.block != s.msg
    ensures PartRight(v, ops + [op], s)
  {
    hide Step, Enabled, LastWrap;
    if s.msg.Some? {
      LastWrapNext(ops, op, s.msg.value);
      Accounting.StepKeepsContents(w, op, s.msg.value);
    }
  }

  lemma SizesNext<P>(w: World<P>, ops: seq<Op<P>>, op: Op<P>)
    requires Sound(w) && SizesRight(w, ops) && Enabled(w, op)
    ensures SizesRight(Step(w, op), ops + [op])
  {
    hide LastWrap, PartRight;
    var v := Step(w, op);
    forall b: Block | LastWrap(ops + [op], b).Some? ensures b < |v.blocks| {
      LastWrapNext(ops, op, b);
    }
    forall p | p in v.parts ensures PartRight(v, ops + [op], v.parts[p]) {
      PartNext(w, ops, op, p);
    }
  }

  /** The state of a part after an operation is new, or that of a part before it, or that without its block. */
  lemma WhereFrom<P>(w: World<P>, op: Op<P>, p: P)
    requires Enabled(w, op) && p in Step(w, op).parts && !(op.Fill? || op.Allocate? || op.Wrap?)
    ensures var s := Step(w, op).parts[p];
            s.msg.Some? ==> exists q :: q in w.parts && w.parts[q] == s
  {
    var s := Step(w, op).parts[p];
    var from := if (op.Move? || op.Assign?) && p == op.p then op.from else p;
    assert s.msg.Some? ==> from in w.parts && w.parts[from] == s;
  }

  lemma WrappedNext<P>(w: World<P>, ops: seq<Op<P>>, op: Op<P>, p: P)
    requires PartsOwn(w) && SizesRight(w, ops) && Enabled(w, op) && op.Wrap? && p in Step(w, op).parts
    ensures PartRight(Step(w, op), ops + [op], Step(w, op).parts[p])
  {
    hide LastWrap;
    if op.p != p {
      assert OwnsWell(w, w.parts[p]);
      PartStays(w, ops, op, Step(w, op), w.parts[p]);
    } else if op.block.Some? {
      LastWrapNext(ops, op, op.block.value);
    }
  }

  lemma MadeNext<P>(w: World<P>, ops: seq<Op<P>>, op: Op<P>, p: P)
    requires SizesRight(w, ops) && Enabled(w, op) && (op.Fill? || op.Allocate?) && p in Step(w, op).parts
    ensures PartRight(Step(w, op), ops + [op], Step(w, op).parts[p])
  {
    hide LastWrap;
    LastWrapNext(ops, op, |w.blocks|);
    if op.p != p {
      PartStays(w, ops, op, Step(w, op), w.parts[p]);
    }
  }

  lemma PartNext<P>(w: World<P>, ops: seq<Op<P>>, op: Op<P>, p: P)
    requires Sound(w) && SizesRight(w, ops) && Enabled(w, op) && p in Step(w, op).parts
    ensures PartRight(Step(w, op), ops + [op], Step(w, op).parts[p])
  {
    if op.Fill? || op.Allocate? {
      MadeNext(w, ops, op, p);
    } else if op.Wrap? {
      WrappedNext(w, ops, op, p);
    } else {
      WhereFrom(w, op, p);
      hide Step, LastWrap, Sound, Enabled;
      if Step(w, op).parts[p].msg.Some? {
        PartStays(w, ops, op, Step(w, op), Step(w, op).parts[p]);
      }
    }
  }

  /** Over any run of operations a part that holds a block has the size that block came with. */
  lemma {:induction false} RunKeepsSizes<P>(w: World<P>, done: seq<Op<P>>, ops: seq<Op<P>>)
    requires Sound(w) && SizesRight(w, done) && Legal(w, ops)
    ensures SizesRight(Run(w, ops), done + ops)
    decreases |ops|
  {
    hide Sound, SizesRight, Step;
    if ops == [] {
      assert done + ops == done;
    } else {
      StepKeepsSound(w, ops[0]);
      SizesNext(w, done, ops[0]);
      RunKeepsSizes(Step(w, ops[0]), done + [ops[0]], ops[1..]);
      assert done + [ops[0]] + ops[1..] == done + ops;
    }
  }

  /** From the start: a copy or a buffer has the size of its bytes and is marked as from `malloc`; a part with a
      message of nanomsg's has the size that stands for one, or the one its pointer was last wrapped with. */
  lemma SizesAre<P>(ops: seq<Op<P>>, p: P)
    requires Legal(Empty(), ops) && p in Run(Empty(), ops).parts && Run(Empty(), ops).parts[p].msg.Some?
    ensures var w := Run(Empty(), ops);
            var s := w.parts[p];
            && s.msg.value < |w.blocks|
            && (w.blocks[s.msg.value].allocator == Malloc ==>
                  s.malloc && s.size == |w.blocks[s.msg.value].bytes|)
            && (w.blocks[s.msg.value].allocator == NnAllocMsg ==>
                  !s.malloc && s.size == (match LastWrap(ops, s.msg.value) case None => NN_MSG case Some(size) => size))
  {
    hide LastWrap, Step, Legal, Run;
    NothingYet<P>();
    RunKeepsSizes(Empty<P>(), [], ops);
    assert [] + ops == ops;
    assert PartRight(Run(Empty(), ops), ops, Run(Empty(), ops).parts[p]);
  }

  lemma NothingYet<P>()
    ensures Sound(Empty<P>()) && SizesRight(Empty<P>(), [])
  {
  }

  /** A block that nanomsg allocated for a part and that was never wrapped. */
  lemma {:induction false} NeverWrapped<P>(ops: seq<Op<P>>, b: Block)
    requires forall op | op in ops && op.Wrap? :: op.block != Some(b)
    ensures LastWrap(ops, b) == None
    decreases |ops|
  {
    if ops != [] {
      var n := |ops| - 1;
      assert ops[n] in ops;
      assert forall op | op in ops[..n] :: op in ops;
      NeverWrapped(ops[..n], b);
    }
  }
}
