/** What every interleaving of the queue's steps keeps. */
module SpscInvariant {
  import opened Options
  import opened SpscQueue

  // ---------------------------------------------------------------------------------------------
  // One block
  // ---------------------------------------------------------------------------------------------

  /** How many increments lead from slot `a` to slot `b`. */
  function Dist(a: nat, b: nat, size: nat): int {
    if b >= a then b - a else b + size - a
  }

  function Count(b: Block): int {
    Dist(b.front, b.tail, |b.data|)
  }

  /**
   The two shadow indices are stale but safe: walking up from `localFront` one meets `front` and
   then `tail`; walking up from `front` one meets `localTail` and then `tail`.
  */
  predicate IndicesOk(b: Block) {
    && |b.data| >= 2
    && b.front < |b.data| && b.localTail < |b.data| && b.tail < |b.data| && b.localFront < |b.data|
    && Dist(b.front, b.localTail, |b.data|) <= Count(b)
    && Dist(b.localFront, b.front, |b.data|) <= Dist(b.localFront, b.tail, |b.data|)
  }

  /** The object slot `j` must hold, in a block whose front element is number `pos`. */
  function Expected(b: Block, pos: nat, puts: seq<Elem>, hole: bool, extra: Option<Elem>, j: nat): Option<Elem> {
    var d := Dist(b.front, j, |b.data|);
    if 0 <= d < Count(b) then
      if (hole && d == 0) || pos + d >= |puts| then None else Some(puts[pos + d])
    else if j == b.tail then extra
    else None
  }

  /**
   `hole`: the front element has been moved out but `front` not yet advanced.
   `extra`: the object already constructed in the slot at `tail`.
  */
  ghost predicate SlotsOk(b: Block, pos: nat, puts: seq<Elem>, hole: bool, extra: Option<Elem>) {
    forall j :: 0 <= j < |b.data| ==> b.data[j] == Expected(b, pos, puts, hole, extra, j)
  }

  ghost predicate BlockOk(b: Block, pos: nat, puts: seq<Elem>, hole: bool, extra: Option<Elem>, m: nat) {
    && IndicesOk(b)
    && |b.data| - 1 >= m
    && pos + Count(b) <= |puts|
    && SlotsOk(b, pos, puts, hole, extra)
  }

  // ---------------------------------------------------------------------------------------------
  // The whole state
  // ---------------------------------------------------------------------------------------------

  /** The accepted elements, and the one stored in the next block but not yet published. */
  function Stored(c: Conc, h: Hist): seq<Elem> {
    if c.p.PStoreTailBlock? || c.p.PLink? then h.puts + [c.p.x] else h.puts
  }

  function Hole(c: Consumer, id: nat): bool {
    c.CStoreFront? && c.fb == id
  }

  function Extra(p: Producer, id: nat): Option<Elem> {
    if p.PStoreTail? && p.tb == id then Some(p.x)
    else if p.PStoreNextTail? && p.nb == id then Some(p.x)
    else None
  }

  ghost predicate BlocksOk(c: Conc, h: Hist, m: nat) {
    && |h.pos| == |c.blocks|
    && forall id :: 0 <= id < |c.blocks| ==>
         BlockOk(c.blocks[id], h.pos[id], Stored(c, h), Hole(c.c, id), Extra(c.p, id), m)
  }

  /** `chain` follows the `next` pointers once round the ring. */
  ghost predicate RingOk(blocks: seq<Block>, chain: seq<nat>, tp: nat) {
    && tp < |chain|
    && (forall i :: 0 <= i < |chain| ==> chain[i] < |blocks|)
    && (forall i, j :: 0 <= i < j < |chain| ==> chain[i] != chain[j])
    && (forall i :: 0 <= i < |chain| - 1 ==> blocks[chain[i]].next == chain[i + 1])
    && blocks[chain[|chain| - 1]].next == chain[0]
  }

  /** Elements lie in consecutive order along the chain, full blocks strictly between front and tail. */
  ghost predicate OrderOk(blocks: seq<Block>, h: Hist)
    requires RingOk(blocks, h.chain, h.tp) && |h.pos| == |blocks|
  {
    && h.pos[h.chain[0]] == |h.taken|
    && h.pos[h.chain[h.tp]] + Count(blocks[h.chain[h.tp]]) == |h.puts|
    && (forall i :: 0 <= i < h.tp ==>
          h.pos[h.chain[i]] + Count(blocks[h.chain[i]]) == h.pos[h.chain[i + 1]])
    && (forall i :: 0 <= i <= h.tp ==> h.pos[h.chain[i]] + Count(blocks[h.chain[i]]) <= |h.puts|)
    && (forall i :: 1 <= i < h.tp ==> Count(blocks[h.chain[i]]) == |blocks[h.chain[i]].data| - 1)
    && (h.tp > 0 ==> Count(blocks[h.chain[h.tp]]) >= 1)
  }

  /** Beyond the tail block everything is empty, but for the element about to be published. */
  ghost predicate BeyondOk(blocks: seq<Block>, h: Hist, p: Producer)
    requires RingOk(blocks, h.chain, h.tp)
  {
    forall i :: h.tp < i < |h.chain| ==>
      Count(blocks[h.chain[i]]) == if p.PStoreTailBlock? && p.nb == h.chain[i] then 1 else 0
  }

  ghost predicate CapacityOk(h: Hist, n: nat, m: nat) {
    && (|h.chain| == 1 ==> m >= n)
    && (|h.chain| >= 2 ==> (|h.chain| - 1) * m >= n)
  }

  /** The tail block was found full, and only a consumer sitting in it can have changed that. */
  ghost predicate FoundFull(c: Conc, h: Hist, m: nat)
    requires RingOk(c.blocks, h.chain, h.tp)
  {
    && (h.tp > 0 ==> Count(c.blocks[h.chain[h.tp]]) == |c.blocks[h.chain[h.tp]].data| - 1)
    && (|h.chain| == 1 ==> h.peak >= m)
  }

  ghost predicate ProducerOk(c: Conc, h: Hist, m: nat)
    requires RingOk(c.blocks, h.chain, h.tp) && |h.pos| == |c.blocks|
  {
    && c.tailBlock == h.chain[h.tp]
    && match c.p
       case PIdle => true
       case PLoadTailBlock(_, _) => true
       case PLoadTail(_, _, tb) => tb == c.tailBlock
       case PReloadFront(_, _, tb, bt, nt) =>
         tb == c.tailBlock && bt == c.blocks[tb].tail && nt == Inc(bt, |c.blocks[tb].data|)
       case PWrite(_, tb, bt, nt) =>
         && tb == c.tailBlock && bt == c.blocks[tb].tail && nt == Inc(bt, |c.blocks[tb].data|)
         && nt != c.blocks[tb].localFront
       case PStoreTail(_, tb, bt, nt) =>
         && tb == c.tailBlock && bt == c.blocks[tb].tail && nt == Inc(bt, |c.blocks[tb].data|)
         && nt != c.blocks[tb].localFront
       case PLoadNext(_, _, tb) => tb == c.tailBlock && FoundFull(c, h, m)
       case PLoadFrontBlock(_, _, tb, n1) =>
         tb == c.tailBlock && FoundFull(c, h, m) && n1 == c.blocks[tb].next
       case PLoadNextAgain(_, tb) => tb == c.tailBlock && FoundFull(c, h, m) && h.tp + 1 < |h.chain|
       case PLoadNextFront(_, nb) => FoundFull(c, h, m) && h.tp + 1 < |h.chain| && nb == h.chain[h.tp + 1]
       case PLoadNextTail(_, nb, nf) =>
         && FoundFull(c, h, m) && h.tp + 1 < |h.chain| && nb == h.chain[h.tp + 1]
         && nf == c.blocks[nb].front == c.blocks[nb].localFront
       case PWriteNext(_, nb, bt) =>
         && FoundFull(c, h, m) && h.tp + 1 < |h.chain| && nb == h.chain[h.tp + 1]
         && bt == c.blocks[nb].front == c.blocks[nb].localFront == c.blocks[nb].tail
       case PStoreNextTail(_, nb, bt) =>
         && FoundFull(c, h, m) && h.tp + 1 < |h.chain| && nb == h.chain[h.tp + 1]
         && bt == c.blocks[nb].front == c.blocks[nb].localFront == c.blocks[nb].tail
       case PAlloc(_, tb) => tb == c.tailBlock && FoundFull(c, h, m)
       case PLink(_, tb, nb) =>
         && tb == c.tailBlock && FoundFull(c, h, m)
         && nb == |c.blocks| - 1 && nb !in h.chain && c.blocks[nb].next == c.blocks[tb].next
         && Count(c.blocks[nb]) == 1 && h.pos[nb] == |h.puts|
       case PStoreTailBlock(_, nb) =>
         && FoundFull(c, h, m) && h.tp + 1 < |h.chain| && nb == h.chain[h.tp + 1]
         && h.pos[nb] == |h.puts|
  }

  ghost predicate ConsumerOk(c: Conc, h: Hist)
    requires RingOk(c.blocks, h.chain, h.tp) && |h.pos| == |c.blocks|
  {
    && c.frontBlock == h.chain[0]
    && match c.c
       case CIdle => true
       case CLoadFrontBlock(_) => true
       case CLoadFront(_, fb) => fb == c.frontBlock
       case CReloadTail(_, fb, bf) => fb == c.frontBlock && bf == c.blocks[fb].front
       case CLoadTailBlock(_, fb) => fb == c.frontBlock && (h.tp == 0 ==> h.sawEmpty)
       case CReloadFrontBlock(_) => h.tp > 0
       case CReloadTailAgain(_, fb) => fb == c.frontBlock && h.tp > 0
       case CReloadFront(_, fb, bt) =>
         fb == c.frontBlock && h.tp > 0 && bt == c.blocks[fb].tail == c.blocks[fb].localTail
       case CLoadNext(_, fb) => fb == c.frontBlock && h.tp > 0 && Count(c.blocks[fb]) == 0
       case CLoadNextFront(_, nb) => h.tp > 0 && Count(c.blocks[h.chain[0]]) == 0 && nb == h.chain[1]
       case CLoadNextTail(_, nb, nf) =>
         && h.tp > 0 && Count(c.blocks[h.chain[0]]) == 0 && nb == h.chain[1]
         && nf == c.blocks[nb].front
       case CStoreFrontBlock(op, nb, nf) =>
         && h.tp > 0 && Count(c.blocks[h.chain[0]]) == 0 && nb == h.chain[1] && !op.Peek?
         && nf == c.blocks[nb].front && nf != c.blocks[nb].localTail
       case CRead(op, fb, bf) =>
         && fb < |c.blocks| && bf == c.blocks[fb].front && Count(c.blocks[fb]) >= 1
         && (op.Peek? || bf != c.blocks[fb].localTail)
         && (fb == h.chain[0]
             || (op.Peek? && h.tp > 0 && Count(c.blocks[h.chain[0]]) == 0 && fb == h.chain[1]))
       case CStoreFront(op, fb, bf, v) =>
         && fb == h.chain[0] && bf == c.blocks[fb].front && Count(c.blocks[fb]) >= 1
         && bf != c.blocks[fb].localTail
         && |h.taken| < |h.puts| && v == h.puts[|h.taken|]
  }

  /** `n` is the capacity asked for, `m + 1` the size of the smallest block. */
  ghost predicate Inv(c: Conc, h: Hist, n: nat, m: nat) {
    && m >= 1 && c.largest >= 1 && c.largest - 1 >= m
    && h.taken <= h.puts
    && RingOk(c.blocks, h.chain, h.tp)
    && BlocksOk(c, h, m)
    && OrderOk(c.blocks, h)
    && BeyondOk(c.blocks, h, c.p)
    && CapacityOk(h, n, m)
    && h.peak >= Held(h)
    && ProducerOk(c, h, m)
    && ConsumerOk(c, h)
  }
}
