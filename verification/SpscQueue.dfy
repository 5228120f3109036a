/**
 The lock-free single-producer single-consumer queue as a two-thread transition system.

 Every load or store of a field that the other thread can touch is one step; an event names the
 thread that moves next, so a sequence of events is one interleaving. Memory is sequentially
 consistent. A block is named by its index in `blocks`, which stands for its address.
*/
module SpscQueue {
  import opened Options

  // Queue elements are opaque.
  type Elem(==, !new)

  // ---------------------------------------------------------------------------------------------
  // Concrete state
  // ---------------------------------------------------------------------------------------------

  /** A slot is `None` while it holds no constructed object. */
  datatype Block = Block(
    front: nat, localTail: nat, tail: nat, localFront: nat, next: nat, data: seq<Option<Elem>>)

  /** `(i + 1) & sizeMask` for a block of `size` slots; `SpscTheorems.IncIsMask` is the bit-level reading. */
  function Inc(i: nat, size: nat): nat {
    if i + 1 == size then 0 else i + 1
  }

  /** Where the producer stands inside `inner_enqueue`, with the locals it still needs. */
  datatype Producer =
    | PIdle
    | PLoadTailBlock(x: Elem, alloc: bool)
    | PLoadTail(x: Elem, alloc: bool, tb: nat)
    | PReloadFront(x: Elem, alloc: bool, tb: nat, bt: nat, nt: nat)
    | PWrite(x: Elem, tb: nat, bt: nat, nt: nat)
    | PStoreTail(x: Elem, tb: nat, bt: nat, nt: nat)
    | PLoadNext(x: Elem, alloc: bool, tb: nat)
    | PLoadFrontBlock(x: Elem, alloc: bool, tb: nat, n1: nat)
    | PLoadNextAgain(x: Elem, tb: nat)
    | PLoadNextFront(x: Elem, nb: nat)
    | PLoadNextTail(x: Elem, nb: nat, nf: nat)
    | PWriteNext(x: Elem, nb: nat, bt: nat)
    | PStoreNextTail(x: Elem, nb: nat, bt: nat)
    | PAlloc(x: Elem, tb: nat)
    | PLink(x: Elem, tb: nat, nb: nat)
    | PStoreTailBlock(x: Elem, nb: nat)

  datatype Op = TryDequeue | Pop | Peek

  /** Where the consumer stands inside `try_dequeue`, `pop` or `peek`. */
  datatype Consumer =
    | CIdle
    | CLoadFrontBlock(op: Op)
    | CLoadFront(op: Op, fb: nat)
    | CReloadTail(op: Op, fb: nat, bf: nat)
    | CLoadTailBlock(op: Op, fb: nat)
    | CReloadFrontBlock(op: Op)
    | CReloadTailAgain(op: Op, fb: nat)
    | CReloadFront(op: Op, fb: nat, bt: nat)
    | CLoadNext(op: Op, fb: nat)
    | CLoadNextFront(op: Op, nb: nat)
    | CLoadNextTail(op: Op, nb: nat, nf: nat)
    | CStoreFrontBlock(op: Op, nb: nat, nf: nat)
    | CRead(op: Op, fb: nat, bf: nat)
    | CStoreFront(op: Op, fb: nat, bf: nat, v: Elem)

  datatype Conc = Conc(
    blocks: seq<Block>, frontBlock: nat, tailBlock: nat, largest: nat, maxBlock: nat,
    p: Producer, c: Consumer)

  /** The thread that moves; the inputs matter only where a call begins or memory is requested. */
  datatype Event =
    | ProducerMoves(x: Elem, alloc: bool, allocOk: bool)
    | ConsumerMoves(op: Op)

  // ---------------------------------------------------------------------------------------------
  // Steps
  // ---------------------------------------------------------------------------------------------

  function NewBlock(x: Elem, size: nat, next: nat): Block
    requires size >= 1
  {
    Block(0, 1, 1, 0, next, seq(size, i => if i == 0 then Some(x) else None))
  }

  /** `largestBlockSize >= MAX_BLOCK_SIZE ? largestBlockSize : largestBlockSize * 2`. */
  function GrownSize(c: Conc): nat {
    if c.largest >= c.maxBlock then c.largest else c.largest * 2
  }

  /** All ids and indices the next step uses are in range: no step dereferences a wild pointer. */
  predicate Safe(c: Conc) {
    && c.largest >= 1
    && (match c.p
        case PIdle => true
        case PLoadTailBlock(_, _) => true
        case PLoadTail(_, _, tb) => tb < |c.blocks|
        case PReloadFront(_, _, tb, _, _) => tb < |c.blocks|
        case PWrite(_, tb, bt, _) => tb < |c.blocks| && bt < |c.blocks[tb].data|
        case PStoreTail(_, tb, _, _) => tb < |c.blocks|
        case PLoadNext(_, _, tb) => tb < |c.blocks|
        case PLoadFrontBlock(_, _, _, _) => true
        case PLoadNextAgain(_, tb) => tb < |c.blocks|
        case PLoadNextFront(_, nb) => nb < |c.blocks|
        case PLoadNextTail(_, nb, _) => nb < |c.blocks|
        case PWriteNext(_, nb, bt) => nb < |c.blocks| && bt < |c.blocks[nb].data|
        case PStoreNextTail(_, nb, _) => nb < |c.blocks|
        case PAlloc(_, tb) => tb < |c.blocks|
        case PLink(_, tb, _) => tb < |c.blocks|
        case PStoreTailBlock(_, _) => true)
    && (match c.c
        case CIdle => true
        case CLoadFrontBlock(_) => true
        case CLoadFront(_, fb) => fb < |c.blocks|
        case CReloadTail(_, fb, _) => fb < |c.blocks|
        case CLoadTailBlock(_, _) => true
        case CReloadFrontBlock(_) => true
        case CReloadTailAgain(_, fb) => fb < |c.blocks|
        case CReloadFront(_, fb, _) => fb < |c.blocks|
        case CLoadNext(_, fb) => fb < |c.blocks|
        case CLoadNextFront(_, nb) => nb < |c.blocks|
        case CLoadNextTail(_, nb, _) => nb < |c.blocks|
        case CStoreFrontBlock(_, _, _) => true
        case CRead(_, fb, bf) => fb < |c.blocks| && bf < |c.blocks[fb].data| && c.blocks[fb].data[bf].Some?
        case CStoreFront(_, fb, _, _) => fb < |c.blocks|)
  }

  function ProducerStep(c: Conc, x: Elem, alloc: bool, allocOk: bool): Conc
    requires Safe(c)
  {
    var bs := c.blocks;
    match c.p
    case PIdle => c.(p := PLoadTailBlock(x, alloc))
    case PLoadTailBlock(x, alloc) => c.(p := PLoadTail(x, alloc, c.tailBlock))
    case PLoadTail(x, alloc, tb) =>
      var bt := bs[tb].tail;
      var nt := Inc(bt, |bs[tb].data|);
      if nt != bs[tb].localFront then c.(p := PWrite(x, tb, bt, nt))
      else c.(p := PReloadFront(x, alloc, tb, bt, nt))
    case PReloadFront(x, alloc, tb, bt, nt) =>
      var c' := c.(blocks := bs[tb := bs[tb].(localFront := bs[tb].front)]);
      if nt != bs[tb].front then c'.(p := PWrite(x, tb, bt, nt)) else c'.(p := PLoadNext(x, alloc, tb))
    case PWrite(x, tb, bt, nt) =>
      c.(blocks := bs[tb := bs[tb].(data := bs[tb].data[bt := Some(x)])], p := PStoreTail(x, tb, bt, nt))
    case PStoreTail(x, tb, bt, nt) =>
      c.(blocks := bs[tb := bs[tb].(tail := nt)], p := PIdle)
    case PLoadNext(x, alloc, tb) => c.(p := PLoadFrontBlock(x, alloc, tb, bs[tb].next))
    case PLoadFrontBlock(x, alloc, tb, n1) =>
      if n1 != c.frontBlock then c.(p := PLoadNextAgain(x, tb))
      else if alloc then c.(p := PAlloc(x, tb))
      else c.(p := PIdle)
    case PLoadNextAgain(x, tb) => c.(p := PLoadNextFront(x, bs[tb].next))
    case PLoadNextFront(x, nb) =>
      c.(blocks := bs[nb := bs[nb].(localFront := bs[nb].front)], p := PLoadNextTail(x, nb, bs[nb].front))
    case PLoadNextTail(x, nb, nf) =>
      c.(blocks := bs[nb := bs[nb].(localFront := nf)], p := PWriteNext(x, nb, bs[nb].tail))
    case PWriteNext(x, nb, bt) =>
      c.(blocks := bs[nb := bs[nb].(data := bs[nb].data[bt := Some(x)])], p := PStoreNextTail(x, nb, bt))
    case PStoreNextTail(x, nb, bt) =>
      c.(blocks := bs[nb := bs[nb].(tail := Inc(bt, |bs[nb].data|))], p := PStoreTailBlock(x, nb))
    case PAlloc(x, tb) =>
      if allocOk then
        c.(blocks := bs + [NewBlock(x, GrownSize(c), bs[tb].next)], largest := GrownSize(c), p := PLink(x, tb, |bs|))
      else c.(p := PIdle)
    case PLink(x, tb, nb) =>
      c.(blocks := bs[tb := bs[tb].(next := nb)], p := PStoreTailBlock(x, nb))
    case PStoreTailBlock(x, nb) => c.(tailBlock := nb, p := PIdle)
  }

  function ConsumerStep(c: Conc, op: Op): Conc
    requires Safe(c)
  {
    var bs := c.blocks;
    match c.c
    case CIdle => c.(c := CLoadFrontBlock(op))
    case CLoadFrontBlock(op) => c.(c := CLoadFront(op, c.frontBlock))
    case CLoadFront(op, fb) =>
      if bs[fb].front != bs[fb].localTail then c.(c := CRead(op, fb, bs[fb].front))
      else c.(c := CReloadTail(op, fb, bs[fb].front))
    case CReloadTail(op, fb, bf) =>
      var c' := c.(blocks := bs[fb := bs[fb].(localTail := bs[fb].tail)]);
      if bf != bs[fb].tail then c'.(c := CRead(op, fb, bf)) else c'.(c := CLoadTailBlock(op, fb))
    case CLoadTailBlock(op, fb) =>
      if fb != c.tailBlock then c.(c := CReloadFrontBlock(op)) else c.(c := CIdle)
    case CReloadFrontBlock(op) => c.(c := CReloadTailAgain(op, c.frontBlock))
    case CReloadTailAgain(op, fb) =>
      c.(blocks := bs[fb := bs[fb].(localTail := bs[fb].tail)], c := CReloadFront(op, fb, bs[fb].tail))
    case CReloadFront(op, fb, bt) =>
      if bs[fb].front != bt then c.(c := CRead(op, fb, bs[fb].front)) else c.(c := CLoadNext(op, fb))
    case CLoadNext(op, fb) => c.(c := CLoadNextFront(op, bs[fb].next))
    case CLoadNextFront(op, nb) => c.(c := CLoadNextTail(op, nb, bs[nb].front))
    case CLoadNextTail(op, nb, nf) =>
      if op.Peek? then c.(c := CRead(op, nb, nf))
      else c.(blocks := bs[nb := bs[nb].(localTail := bs[nb].tail)], c := CStoreFrontBlock(op, nb, nf))
    case CStoreFrontBlock(op, nb, nf) => c.(frontBlock := nb, c := CRead(op, nb, nf))
    case CRead(op, fb, bf) =>
      if op.Peek? then c.(c := CIdle)
      else c.(blocks := bs[fb := bs[fb].(data := bs[fb].data[bf := None])],
              c := CStoreFront(op, fb, bf, bs[fb].data[bf].value))
    case CStoreFront(op, fb, bf, v) =>
      c.(blocks := bs[fb := bs[fb].(front := Inc(bf, |bs[fb].data|))], c := CIdle)
  }

  function Step(c: Conc, e: Event): Conc
    requires Safe(c)
  {
    match e
    case ProducerMoves(x, alloc, allocOk) => ProducerStep(c, x, alloc, allocOk)
    case ConsumerMoves(op) => ConsumerStep(c, op)
  }

  // ---------------------------------------------------------------------------------------------
  // What a caller sees
  // ---------------------------------------------------------------------------------------------

  /** The step on which an enqueue takes effect and is certain to return true. */
  predicate Accepts(c: Conc, e: Event) {
    e.ProducerMoves? && (c.p.PStoreTail? || c.p.PStoreTailBlock?)
  }

  /** An enqueue finds no block with room. */
  predicate FindsFull(c: Conc, e: Event) {
    e.ProducerMoves? && c.p.PLoadFrontBlock? && c.p.n1 == c.frontBlock
  }

  /** `inner_enqueue<CannotAlloc>` decides to return false. */
  predicate Refuses(c: Conc, e: Event) {
    FindsFull(c, e) && !c.p.alloc
  }

  /** `inner_enqueue<CanAlloc>` gets no memory and returns false. */
  predicate OutOfMemory(c: Conc, e: Event) {
    e.ProducerMoves? && c.p.PAlloc? && !e.allocOk
  }

  /** A dequeue or pop takes effect and is certain to return true; `c.c.v` is the element. */
  predicate Takes(c: Conc, e: Event) {
    e.ConsumerMoves? && c.c.CStoreFront?
  }

  /** `try_dequeue`, `pop` or `peek` decides to report an empty queue. */
  predicate ReportsEmpty(c: Conc, e: Event) {
    e.ConsumerMoves? && c.c.CLoadTailBlock? && c.c.fb == c.tailBlock
  }

  /** `peek` returns a pointer to the element in slot `c.c.bf`. */
  predicate Peeks(c: Conc, e: Event) {
    e.ConsumerMoves? && c.c.CRead? && c.c.op.Peek?
  }

  /** The condition asserted when the consumer moves to the next block. */
  predicate NextBlockNonEmpty(c: Conc) {
    c.c.CLoadNextTail? ==> c.c.nb < |c.blocks| && c.c.nf != c.blocks[c.c.nb].tail
  }

  /** The condition asserted when the producer moves to the next block. */
  predicate NextBlockEmpty(c: Conc) {
    c.p.PLoadNextTail? ==> c.p.nb < |c.blocks| && c.p.nf == c.blocks[c.p.nb].tail
  }

  // ---------------------------------------------------------------------------------------------
  // History: what the threads have agreed on so far. No step reads it.
  // ---------------------------------------------------------------------------------------------

  /**
   `chain` lists the ring from the front block on, `chain[tp]` is the tail block, and `pos[b]` is the
   number of the element at the front of block `b`, counted from the first element ever accepted.
   `sawEmpty` says whether the queue was empty at some instant since the consumer's call began, and
   `peak` is the largest content since the producer's call began.
  */
  datatype Hist = Hist(
    puts: seq<Elem>, taken: seq<Elem>, chain: seq<nat>, tp: nat, pos: seq<nat>, sawEmpty: bool, peak: nat)

  function Held(h: Hist): int {
    |h.puts| - |h.taken|
  }

  function Max(a: int, b: int): int {
    if a >= b then a else b
  }

  /** Bookkeeping common to all steps: observe the content after the step. */
  function Observe(h: Hist, newConsumerCall: bool, newProducerCall: bool): Hist {
    h.(sawEmpty := (h.sawEmpty && !newConsumerCall) || Held(h) == 0,
       peak := Max(if newProducerCall then 0 else h.peak, Max(Held(h), 0)))
  }

  function ProducerHist(c: Conc, h: Hist, allocOk: bool): Hist {
    match c.p
    case PStoreTail(x, _, _, _) => h.(puts := h.puts + [x])
    case PStoreNextTail(_, nb, _) => if nb < |h.pos| then h.(pos := h.pos[nb := |h.puts|]) else h
    case PAlloc(_, _) => if allocOk then h.(pos := h.pos + [|h.puts|]) else h
    case PLink(_, _, nb) =>
      if h.tp < |h.chain| then h.(chain := h.chain[..h.tp + 1] + [nb] + h.chain[h.tp + 1..]) else h
    case PStoreTailBlock(x, _) => h.(puts := h.puts + [x], tp := h.tp + 1)
    case _ => h
  }

  function ConsumerHist(c: Conc, h: Hist): Hist {
    match c.c
    case CStoreFrontBlock(_, _, _) =>
      if |h.chain| > 0 && h.tp > 0 then h.(chain := h.chain[1..] + [h.chain[0]], tp := h.tp - 1) else h
    case CStoreFront(_, fb, _, v) =>
      if fb < |h.pos| then h.(taken := h.taken + [v], pos := h.pos[fb := h.pos[fb] + 1]) else h
    case _ => h
  }

  function HistStep(c: Conc, h: Hist, e: Event): Hist {
    var h' := if e.ProducerMoves? then ProducerHist(c, h, e.allocOk) else ConsumerHist(c, h);
    Observe(h', e.ConsumerMoves? && c.c.CIdle?, e.ProducerMoves? && c.p.PIdle?)
  }
}
