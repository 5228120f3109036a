/**
 How much a queue takes that nobody else is using: from an empty queue with an idle consumer, `try_enqueue` succeeds
 exactly as often as the blocks have usable slots.
*/
module SpscCapacity {
  import opened Options
  import opened PowersOfTwo
  import opened SpscQueue
  import opened SpscInvariant
  import opened SpscSteps
  import opened SpscRuns
  import opened SpscTheorems

  /** Number and size of the blocks of a new queue; `rounded` is `ceilToPow2(n + 1)`. */
  function NewBlocks(rounded: nat, n: nat, maxBlock: nat): (nat, nat)
    requires maxBlock >= 2
  {
    if rounded > maxBlock * 2 then (BlockCount(n, maxBlock - 1), maxBlock) else (1, rounded)
  }

  /** The usable slots of a new queue: one less than its size for each block. */
  function Capacity(n: nat, maxBlock: nat): nat
    requires maxBlock >= 2 && n + 1 < WORD
  {
    var (count, size) := NewBlocks(CeilToPow2(n + 1), n, maxBlock);
    if size == 0 then 0 else count * (size - 1)
  }

  lemma LayoutBlocks(rounded: nat, n: nat, maxBlock: nat)
    requires maxBlock >= 2 && n >= 1
    ensures var c := Layout(rounded, n, maxBlock);
            var (count, size) := NewBlocks(rounded, n, maxBlock);
            && c.p.PIdle? && |c.blocks| == count
            && forall i {:trigger c.blocks[i]} :: 0 <= i < count ==> |c.blocks[i].data| == size
  {
    var (count, size) := NewBlocks(rounded, n, maxBlock);
    var c := Layout(rounded, n, maxBlock);
    assert c.blocks == EmptyRing(count, size);
    forall i {:trigger c.blocks[i]} | 0 <= i < count ensures |c.blocks[i].data| == size {
      assert c.blocks[i] == EmptyBlock(size, if i + 1 == count then 0 else i + 1);
    }
  }

  lemma CapacityIs(rounded: nat, n: nat, maxBlock: nat)
    requires maxBlock >= 2 && n >= 1 && rounded >= n + 1
    ensures var (count, size) := NewBlocks(rounded, n, maxBlock);
            count >= 1 && size >= 2 && count * (size - 1) >= n
  {
    var (count, size) := NewBlocks(rounded, n, maxBlock);
    if rounded > maxBlock * 2 {
      BlockCountSuffices(n, maxBlock - 1);
      BlockCountPositive(n, maxBlock - 1);
      Blocks(count - 1, count, size - 1);
    }
  }

  lemma BlockCountPositive(n: nat, d: nat)
    requires d >= 1 && n >= 1
    ensures BlockCount(n, d) >= 1
  {
    BlockCountSuffices(n, d);
  }

  /** A queue always takes at least the number of elements it was built for. */
  lemma CapacitySuffices(n: nat, maxBlock: nat)
    requires ArgumentsOk(n, maxBlock) && n >= 1
    ensures Capacity(n, maxBlock) >= n
  {
    CeilToPow2Correct(n + 1);
    CapacityIs(CeilToPow2(n + 1), n, maxBlock);
  }

  // ---------------------------------------------------------------------------------------------
  // No allocation
  // ---------------------------------------------------------------------------------------------

  /** Every enqueue is a `try_enqueue`. */
  predicate NeverAllocates(es: seq<Event>) {
    forall k :: 0 <= k < |es| && es[k].ProducerMoves? ==> !es[k].alloc
  }

  predicate NotAllocating(p: Producer) {
    match p
    case PLoadTailBlock(_, alloc) => !alloc
    case PLoadTail(_, alloc, _) => !alloc
    case PReloadFront(_, alloc, _, _, _) => !alloc
    case PLoadNext(_, alloc, _) => !alloc
    case PLoadFrontBlock(_, alloc, _, _) => !alloc
    case PAlloc(_, _) => false
    case PLink(_, _, _) => false
    case _ => true
  }

  /** The blocks are those of the constructor, all of the same size, and all of them are on the ring. */
  predicate SameBlocks(c: Conc, h: Hist, count: nat, size: nat) {
    && NotAllocating(c.p)
    && |c.blocks| == |h.chain| == count
    && forall i :: 0 <= i < |c.blocks| ==> |c.blocks[i].data| == size
  }

  lemma SameBlocksStep(c: Conc, h: Hist, e: Event, count: nat, size: nat)
    requires Safe(c) && SameBlocks(c, h, count, size) && count >= 1
    requires e.ProducerMoves? ==> !e.alloc
    ensures SameBlocks(Step(c, e), HistStep(c, h, e), count, size)
  {
  }

  // ---------------------------------------------------------------------------------------------
  // The producer alone
  // ---------------------------------------------------------------------------------------------

  ghost function TailCount(c: Conc, h: Hist): int
    requires RingOk(c.blocks, h.chain, h.tp)
  {
    Count(c.blocks[h.chain[h.tp]])
  }

  /** The producer has found the tail block full. */
  predicate PastFull(p: Producer) {
    || p.PLoadNext? || p.PLoadFrontBlock? || p.PLoadNextAgain? || p.PLoadNextFront?
    || p.PLoadNextTail? || p.PWriteNext? || p.PStoreNextTail? || p.PStoreTailBlock?
  }

  /** Since the queue was empty only the producer has moved: every block before the tail block is full. */
  ghost predicate Solo(c: Conc, h: Hist, size: nat) {
    && c.c.CIdle?
    && RingOk(c.blocks, h.chain, h.tp)
    && (h.tp > 0 ==> Count(c.blocks[h.chain[0]]) == size - 1)
    && (PastFull(c.p) ==> TailCount(c, h) == size - 1)
  }

  /** In an empty queue at rest the front block is the tail block. */
  lemma EmptyIsSolo(c: Conc, h: Hist, n: nat, m: nat, size: nat)
    requires Inv(c, h, n, m) && c.c.CIdle? && c.p.PIdle? && Held(h) == 0
    ensures Solo(c, h, size)
  {
    if h.tp > 0 {
      assert h.pos[h.chain[0]] + Count(c.blocks[h.chain[0]]) <= |h.puts|;
      assert h.pos[h.chain[h.tp]] + Count(c.blocks[h.chain[h.tp]]) == |h.puts|;
      TailStarts(c, h, n, m, h.tp);
    }
  }

  /** Elements before block `k` of the chain are not negative in number. */
  lemma {:induction false} TailStarts(c: Conc, h: Hist, n: nat, m: nat, k: nat)
    requires Inv(c, h, n, m) && k <= h.tp
    ensures h.pos[h.chain[k]] >= |h.taken|
  {
    if k > 0 {
      TailStarts(c, h, n, m, k - 1);
      var id := h.chain[k - 1];
      assert BlockOk(c.blocks[id], h.pos[id], Stored(c, h), Hole(c.c, id), Extra(c.p, id), m);
      assert h.pos[h.chain[k - 1]] + Count(c.blocks[h.chain[k - 1]]) == h.pos[h.chain[k - 1 + 1]];
    }
  }

  /** A block found full has all its usable slots taken. */
  lemma FullCount(b: Block)
    requires IndicesOk(b) && Inc(b.tail, |b.data|) == b.front
    ensures Count(b) == |b.data| - 1
  {
  }

  lemma SoloFinds(c: Conc, h: Hist, n: nat, m: nat, size: nat, e: Event)
    requires Inv(c, h, n, m) && Safe(c) && Solo(c, h, size) && e.ProducerMoves? && c.p.PReloadFront?
    requires forall i :: 0 <= i < |c.blocks| ==> |c.blocks[i].data| == size
    ensures Solo(Step(c, e), HistStep(c, h, e), size)
  {
    var id := h.chain[h.tp];
    assert BlockOk(c.blocks[id], h.pos[id], Stored(c, h), Hole(c.c, id), Extra(c.p, id), m);
    var c' := Step(c, e);
    if c'.p.PLoadNext? {
      FullCount(c.blocks[id]);
    }
    assert forall i :: 0 <= i < |h.chain| ==> Count(c'.blocks[h.chain[i]]) == Count(c.blocks[h.chain[i]]);
  }

  /** What keeps `Solo` when neither the ring nor the tail block changes. */
  lemma SoloFrame(c: Conc, h: Hist, c': Conc, h': Hist, size: nat)
    requires Solo(c, h, size) && c'.c == c.c && h'.chain == h.chain && h'.tp == h.tp
    requires RingOk(c'.blocks, h'.chain, h'.tp)
    requires h.tp > 0 ==> Count(c'.blocks[h.chain[0]]) == Count(c.blocks[h.chain[0]])
    requires PastFull(c'.p) ==> PastFull(c.p) && TailCount(c', h') == TailCount(c, h)
    ensures Solo(c', h', size)
  {
  }

  lemma SoloWrites(c: Conc, h: Hist, n: nat, m: nat, size: nat, e: Event)
    requires Inv(c, h, n, m) && Safe(c) && Solo(c, h, size) && e.ProducerMoves?
    requires c.p.PWrite? || c.p.PStoreTail?
    requires RingOk(Step(c, e).blocks, HistStep(c, h, e).chain, HistStep(c, h, e).tp)
    ensures Solo(Step(c, e), HistStep(c, h, e), size)
  {
    assert h.tp > 0 ==> h.chain[0] != h.chain[h.tp];
    SoloFrame(c, h, Step(c, e), HistStep(c, h, e), size);
  }

  lemma SoloWritesNext(c: Conc, h: Hist, n: nat, m: nat, size: nat, e: Event)
    requires Inv(c, h, n, m) && Safe(c) && Solo(c, h, size) && e.ProducerMoves?
    requires c.p.PWriteNext? || c.p.PStoreNextTail? || c.p.PLoadNextFront? || c.p.PLoadNextTail?
    requires RingOk(Step(c, e).blocks, HistStep(c, h, e).chain, HistStep(c, h, e).tp)
    ensures Solo(Step(c, e), HistStep(c, h, e), size)
  {
    assert h.chain[h.tp] != h.chain[h.tp + 1] && h.chain[0] != h.chain[h.tp + 1];
    SoloFrame(c, h, Step(c, e), HistStep(c, h, e), size);
  }

  /** The tail moves on to the next block, leaving a full one behind. */
  lemma SoloAdvances(c: Conc, h: Hist, n: nat, m: nat, size: nat, e: Event)
    requires Inv(c, h, n, m) && Safe(c) && Solo(c, h, size) && e.ProducerMoves? && c.p.PStoreTailBlock?
    ensures Solo(Step(c, e), HistStep(c, h, e), size)
  {
  }

  lemma SoloLoads(c: Conc, h: Hist, n: nat, m: nat, size: nat, e: Event)
    requires Inv(c, h, n, m) && Safe(c) && Solo(c, h, size) && e.ProducerMoves? && NotAllocating(c.p)
    requires c.p.PIdle? || c.p.PLoadTailBlock? || c.p.PLoadTail? || c.p.PLoadNext? || c.p.PLoadFrontBlock?
             || c.p.PLoadNextAgain?
    ensures Solo(Step(c, e), HistStep(c, h, e), size)
  {
    SoloFrame(c, h, Step(c, e), HistStep(c, h, e), size);
  }

  lemma SoloStep(c: Conc, h: Hist, n: nat, m: nat, size: nat, count: nat, e: Event)
    requires Inv(c, h, n, m) && Safe(c) && Solo(c, h, size) && e.ProducerMoves?
    requires SameBlocks(c, h, count, size)
    ensures Solo(Step(c, e), HistStep(c, h, e), size)
  {
    InvStep(c, h, n, m, e);
    if c.p.PReloadFront? {
      SoloFinds(c, h, n, m, size, e);
    } else if c.p.PWrite? || c.p.PStoreTail? {
      SoloWrites(c, h, n, m, size, e);
    } else if c.p.PWriteNext? || c.p.PStoreNextTail? || c.p.PLoadNextFront? || c.p.PLoadNextTail? {
      SoloWritesNext(c, h, n, m, size, e);
    } else if c.p.PStoreTailBlock? {
      SoloAdvances(c, h, n, m, size, e);
    } else {
      SoloLoads(c, h, n, m, size, e);
    }
  }

  // ---------------------------------------------------------------------------------------------
  // The decision
  // ---------------------------------------------------------------------------------------------

  /** The first `k` blocks are full, so that block `k` starts at element `k * (size - 1)`. */
  lemma {:induction false} FullStarts(c: Conc, h: Hist, n: nat, m: nat, size: nat, count: nat, k: nat)
    requires Inv(c, h, n, m) && Solo(c, h, size) && SameBlocks(c, h, count, size) && k <= h.tp
    ensures h.pos[h.chain[k]] == |h.taken| + k * (size - 1)
  {
    if k > 0 {
      FullStarts(c, h, n, m, size, count, k - 1);
      assert h.pos[h.chain[k - 1]] + Count(c.blocks[h.chain[k - 1]]) == h.pos[h.chain[k - 1 + 1]];
      assert Count(c.blocks[h.chain[k - 1]]) == size - 1;
      assert k * (size - 1) == (k - 1) * (size - 1) + (size - 1);
    }
  }

  lemma SoloHeld(c: Conc, h: Hist, n: nat, m: nat, size: nat, count: nat)
    requires Inv(c, h, n, m) && Solo(c, h, size) && SameBlocks(c, h, count, size)
    ensures Held(h) == h.tp * (size - 1) + TailCount(c, h)
  {
    FullStarts(c, h, n, m, size, count, h.tp);
  }

  lemma Blocks(a: nat, b: nat, d: nat)
    requires a <= b
    ensures a * d <= b * d && (a + 1) * d == a * d + d
  {
  }

  /** A store that will be published goes into a block, or to a next block, with room. */
  lemma AcceptsBelow(c: Conc, h: Hist, n: nat, m: nat, size: nat, count: nat, e: Event)
    requires Inv(c, h, n, m) && Solo(c, h, size) && SameBlocks(c, h, count, size) && Accepts(c, e)
    ensures Held(h) < count * (size - 1)
  {
    SoloHeld(c, h, n, m, size, count);
    var id := h.chain[h.tp];
    assert BlockOk(c.blocks[id], h.pos[id], Stored(c, h), Hole(c.c, id), Extra(c.p, id), m);
    Blocks(h.tp + 1, count, size - 1);
    Blocks(h.tp, h.tp, size - 1);
    if c.p.PStoreTail? {
      RoomInTail(c.blocks[id]);
    } else {
      Blocks(h.tp + 2, count, size - 1);
      Blocks(h.tp + 1, count, size - 1);
    }
  }

  lemma RoomInTail(b: Block)
    requires IndicesOk(b) && Inc(b.tail, |b.data|) != b.localFront
    ensures Count(b) < |b.data| - 1
  {
  }

  lemma RefusesAt(c: Conc, h: Hist, n: nat, m: nat, size: nat, count: nat, e: Event)
    requires Inv(c, h, n, m) && Solo(c, h, size) && SameBlocks(c, h, count, size) && Refuses(c, e)
    ensures Held(h) == count * (size - 1)
  {
    SoloHeld(c, h, n, m, size, count);
    NextOnRing(c.blocks, h.chain, h.tp);
    Blocks(h.tp, h.tp, size - 1);
  }

  // ---------------------------------------------------------------------------------------------
  // Runs
  // ---------------------------------------------------------------------------------------------

  lemma {:induction false} RunSameBlocks(n: nat, maxBlock: nat, cs: seq<Conc>, es: seq<Event>, i: nat,
                                         count: nat, size: nat)
    requires IsRun(n, maxBlock, cs, es) && n >= 1 && i <= |es| && NeverAllocates(es) && count >= 1
    requires SameBlocks(cs[0], InitialHist(cs[0]), count, size)
    ensures SameBlocks(cs[i], HistAt(cs, es, i), count, size)
  {
    if i > 0 {
      RunSameBlocks(n, maxBlock, cs, es, i - 1, count, size);
      assert Follows(cs[i - 1], es[i - 1], cs[i - 1 + 1]);
      SameBlocksStep(cs[i - 1], HistAt(cs, es, i - 1), es[i - 1], count, size);
    }
  }

  /** From step `j` to step `i` only the producer moves, and at step `j` the queue is empty and at rest. */
  ghost predicate ProducerAlone(cs: seq<Conc>, es: seq<Event>, j: nat, i: nat) {
    && j <= i <= |es| < |cs|
    && cs[j].p.PIdle? && cs[j].c.CIdle? && Accepted(cs, es, j) == Taken(cs, es, j)
    && forall k :: j <= k < i ==> es[k].ProducerMoves?
  }

  lemma {:induction false} RunSolo(n: nat, maxBlock: nat, cs: seq<Conc>, es: seq<Event>, j: nat, i: nat,
                                   count: nat, size: nat)
    requires IsRun(n, maxBlock, cs, es) && n >= 1 && NeverAllocates(es) && ProducerAlone(cs, es, j, i)
    requires count >= 1 && SameBlocks(cs[0], InitialHist(cs[0]), count, size)
    ensures Solo(cs[i], HistAt(cs, es, i), size)
    decreases i
  {
    var m := Room(n, maxBlock);
    if i == j {
      RunInv(n, maxBlock, cs, es, i);
      HistObserved(n, maxBlock, cs, es, i);
      EmptyIsSolo(cs[i], HistAt(cs, es, i), n, m, size);
    } else {
      RunSolo(n, maxBlock, cs, es, j, i - 1, count, size);
      RunInv(n, maxBlock, cs, es, i - 1);
      RunSameBlocks(n, maxBlock, cs, es, i - 1, count, size);
      assert Follows(cs[i - 1], es[i - 1], cs[i - 1 + 1]);
      SoloStep(cs[i - 1], HistAt(cs, es, i - 1), n, m, size, count, es[i - 1]);
    }
  }

  lemma RunDecides(n: nat, maxBlock: nat, cs: seq<Conc>, es: seq<Event>, j: nat, i: nat, count: nat, size: nat)
    requires IsRun(n, maxBlock, cs, es) && n >= 1 && NeverAllocates(es) && ProducerAlone(cs, es, j, i) && i < |es|
    requires count >= 1 && SameBlocks(cs[0], InitialHist(cs[0]), count, size)
    ensures Accepts(cs[i], es[i]) ==> Content(cs, es, i) < count * (size - 1)
    ensures Refuses(cs[i], es[i]) ==> Content(cs, es, i) == count * (size - 1)
  {
    var m := Room(n, maxBlock);
    RunInv(n, maxBlock, cs, es, i);
    RunSameBlocks(n, maxBlock, cs, es, i, count, size);
    RunSolo(n, maxBlock, cs, es, j, i, count, size);
    HistObserved(n, maxBlock, cs, es, i);
    if Accepts(cs[i], es[i]) {
      AcceptsBelow(cs[i], HistAt(cs, es, i), n, m, size, count, es[i]);
    }
    if Refuses(cs[i], es[i]) {
      RefusesAt(cs[i], HistAt(cs, es, i), n, m, size, count, es[i]);
    }
  }

  /**
   From an empty queue with an idle consumer, a `try_enqueue` succeeds exactly while the queue holds fewer elements
   than its capacity: one that is accepted finds fewer, one that is refused finds exactly as many.
  */
  lemma AcceptsExactlyUpToCapacity(n: nat, maxBlock: nat, cs: seq<Conc>, es: seq<Event>, j: nat, i: nat)
    requires IsRun(n, maxBlock, cs, es) && n >= 1 && NeverAllocates(es) && ProducerAlone(cs, es, j, i) && i < |es|
    ensures Accepts(cs[i], es[i]) ==> Content(cs, es, i) < Capacity(n, maxBlock)
    ensures Refuses(cs[i], es[i]) ==> Content(cs, es, i) == Capacity(n, maxBlock)
  {
    var rounded := CeilToPow2(n + 1);
    CeilToPow2Correct(n + 1);
    CapacityIs(rounded, n, maxBlock);
    var (count, size) := NewBlocks(rounded, n, maxBlock);
    LayoutBlocks(rounded, n, maxBlock);
    assert cs[0] == Layout(rounded, n, maxBlock);
    RunDecides(n, maxBlock, cs, es, j, i, count, size);
  }

  /** How many moves a `try_enqueue` can still make before it decides. */
  function MovesLeft(p: Producer): nat {
    match p
    case PIdle => 0
    case PStoreTail(_, _, _, _) => 1
    case PWrite(_, _, _, _) => 2
    case PStoreTailBlock(_, _) => 1
    case PStoreNextTail(_, _, _) => 2
    case PWriteNext(_, _, _) => 3
    case PLoadNextTail(_, _, _) => 4
    case PLoadNextFront(_, _) => 5
    case PLoadNextAgain(_, _) => 6
    case PLoadFrontBlock(_, _, _, _) => 7
    case PLoadNext(_, _, _) => 8
    case PReloadFront(_, _, _, _, _) => 9
    case PLoadTail(_, _, _) => 10
    case PLoadTailBlock(_, _) => 11
    case PAlloc(_, _) => 0
    case PLink(_, _, _) => 0
  }

  /** A `try_enqueue` ends after at most 11 moves, and its last move accepts or refuses. */
  lemma TryEnqueueEnds(c: Conc, e: Event)
    requires Safe(c) && e.ProducerMoves? && NotAllocating(c.p) && !c.p.PIdle?
    ensures MovesLeft(Step(c, e).p) < MovesLeft(c.p) <= 11
    ensures Step(c, e).p.PIdle? <==> Accepts(c, e) || Refuses(c, e)
  {
  }
}
