/** The steps that publish, take, link or hand over a block. */
module SpscMoves {
  import opened Options
  import opened SpscQueue
  import opened SpscInvariant
  import opened SpscBlocks
  import opened SpscFrames

  // Publishing in the tail block.

  lemma StoreTailOrder(bs: seq<Block>, h: Hist, p: Producer, b': Block, h': Hist)
    requires RingOk(bs, h.chain, h.tp) && |h.pos| == |bs| && OrderOk(bs, h) && BeyondOk(bs, h, p)
    requires !p.PStoreTailBlock? && |h'.puts| == |h.puts| + 1
    requires h'.taken == h.taken && h'.chain == h.chain && h'.tp == h.tp && h'.pos == h.pos
    requires var b := bs[h.chain[h.tp]];
             b'.next == b.next && |b'.data| == |b.data| && Count(b') == Count(b) + 1
    ensures var bs' := bs[h.chain[h.tp] := b'];
            RingOk(bs', h'.chain, h'.tp) && OrderOk(bs', h') && BeyondOk(bs', h', PIdle)
  {
    RingFrame(bs, h.chain[h.tp], b', h.chain, h.tp);
  }

  lemma StoreTailConsumer(c: Conc, h: Hist, c': Conc, h': Hist)
    requires RingOk(c.blocks, h.chain, h.tp) && |h.pos| == |c.blocks| && ConsumerOk(c, h)
    requires h'.taken == h.taken && h'.chain == h.chain && h'.tp == h.tp && h'.pos == h.pos
    requires h.puts <= h'.puts && (h.sawEmpty ==> h'.sawEmpty)
    requires c'.c == c.c && c'.frontBlock == c.frontBlock
    requires var id := h.chain[h.tp];
             && |c'.blocks| == |c.blocks| && c'.blocks == c.blocks[id := c.blocks[id].(tail := c'.blocks[id].tail)]
             && Count(c'.blocks[id]) == Count(c.blocks[id]) + 1
    ensures RingOk(c'.blocks, h'.chain, h'.tp) && ConsumerOk(c', h')
  {
    RingFrame(c.blocks, h.chain[h.tp], c'.blocks[h.chain[h.tp]], h.chain, h.tp);
  }

  lemma StoreTail(c: Conc, h: Hist, n: nat, m: nat, e: Event)
    requires Inv(c, h, n, m) && Safe(c) && e.ProducerMoves? && c.p.PStoreTail?
    ensures Inv(Step(c, e), HistStep(c, h, e), n, m)
  {
    var c', h', id := Step(c, e), HistStep(c, h, e), c.p.tb;
    assert BlockOk(c.blocks[id], h.pos[id], Stored(c, h), Hole(c.c, id), Extra(c.p, id), m);
    PublishSlot(c.blocks[id], h.pos[id], Stored(c, h), Hole(c.c, id), c.p.x, m);
    StoreTailOrder(c.blocks, h, c.p, c'.blocks[id], h');
    StoreTailConsumer(c, h, c', h');
    BlocksFrame(c, h, m, id, c', h');
  }

  // Publishing in the block after the tail block.

  lemma StoreNextTailOrder(bs: seq<Block>, h: Hist, p: Producer, b': Block, h': Hist, p': Producer)
    requires RingOk(bs, h.chain, h.tp) && |h.pos| == |bs| && OrderOk(bs, h) && BeyondOk(bs, h, p)
    requires h.tp + 1 < |h.chain| && !p.PStoreTailBlock? && p'.PStoreTailBlock? && p'.nb == h.chain[h.tp + 1]
    requires h'.puts == h.puts && h'.taken == h.taken && h'.chain == h.chain && h'.tp == h.tp
    requires h'.pos == h.pos[h.chain[h.tp + 1] := |h.puts|]
    requires b'.next == bs[h.chain[h.tp + 1]].next && Count(b') == 1
    ensures var bs' := bs[h.chain[h.tp + 1] := b'];
            RingOk(bs', h'.chain, h'.tp) && OrderOk(bs', h') && BeyondOk(bs', h', p')
  {
    var id := h.chain[h.tp + 1];
    RingFrame(bs, id, b', h.chain, h.tp);
    assert forall i :: 0 <= i <= h.tp ==> h.chain[i] != id;
  }

  lemma StoreNextTailConsumer(c: Conc, h: Hist, c': Conc, h': Hist)
    requires RingOk(c.blocks, h.chain, h.tp) && |h.pos| == |c.blocks| && ConsumerOk(c, h)
    requires h.tp + 1 < |h.chain|
    requires h'.taken == h.taken && h'.chain == h.chain && h'.tp == h.tp && h'.puts == h.puts
    requires |h'.pos| == |h.pos| && (h.sawEmpty ==> h'.sawEmpty)
    requires c'.c == c.c && c'.frontBlock == c.frontBlock
    requires var id := h.chain[h.tp + 1];
             && |c'.blocks| == |c.blocks| && c'.blocks == c.blocks[id := c.blocks[id].(tail := c'.blocks[id].tail)]
    ensures RingOk(c'.blocks, h'.chain, h'.tp) && ConsumerOk(c', h')
  {
    var id := h.chain[h.tp + 1];
    RingFrame(c.blocks, id, c'.blocks[id], h.chain, h.tp);
    assert h.chain[0] != id && (h.tp > 0 ==> h.chain[1] != id);
  }

  lemma StoreNextTailProducer(c: Conc, h: Hist, m: nat, c': Conc, h': Hist)
    requires RingOk(c.blocks, h.chain, h.tp) && |h.pos| == |c.blocks| && ProducerOk(c, h, m)
    requires c.p.PStoreNextTail? && c'.p == PStoreTailBlock(c.p.x, c.p.nb) && c'.tailBlock == c.tailBlock
    requires h'.puts == h.puts && h'.chain == h.chain && h'.tp == h.tp && h'.peak >= h.peak
    requires h'.pos == h.pos[c.p.nb := |h.puts|]
    requires |c'.blocks| == |c.blocks| && c'.blocks == c.blocks[c.p.nb := c'.blocks[c.p.nb]]
    requires RingOk(c'.blocks, h'.chain, h'.tp)
    ensures ProducerOk(c', h', m)
  {
    assert h.chain[h.tp] != h.chain[h.tp + 1];
  }

  lemma StoreNextTailBlocks(c: Conc, h: Hist, m: nat, c': Conc, h': Hist)
    requires BlocksOk(c, h, m) && c.p.PStoreNextTail? && c.p.nb < |c.blocks| && !Hole(c.c, c.p.nb)
    requires var b := c.blocks[c.p.nb];
             && c.p.bt == b.front == b.localFront == b.tail
             && c'.blocks == c.blocks[c.p.nb := b.(tail := Inc(c.p.bt, |b.data|))]
    requires c'.c == c.c && c'.p == PStoreTailBlock(c.p.x, c.p.nb)
    requires h'.puts == h.puts && h'.pos == h.pos[c.p.nb := |h.puts|]
    ensures BlocksOk(c', h', m) && Count(c'.blocks[c.p.nb]) == 1
  {
    var id := c.p.nb;
    assert BlockOk(c.blocks[id], h.pos[id], Stored(c, h), Hole(c.c, id), Extra(c.p, id), m);
    PublishFirst(c.blocks[id], h.pos[id], Stored(c, h), c.p.x, m);
    BlocksFrame(c, h, m, id, c', h');
  }

  lemma StoreNextTail(c: Conc, h: Hist, n: nat, m: nat, e: Event)
    requires Inv(c, h, n, m) && Safe(c) && e.ProducerMoves? && c.p.PStoreNextTail?
    ensures Inv(Step(c, e), HistStep(c, h, e), n, m)
  {
    var c', h', id := Step(c, e), HistStep(c, h, e), c.p.nb;
    assert !Hole(c.c, id);
    StoreNextTailBlocks(c, h, m, c', h');
    StoreNextTailOrder(c.blocks, h, c.p, c'.blocks[id], h', c'.p);
    StoreNextTailConsumer(c, h, c', h');
    StoreNextTailProducer(c, h, m, c', h');
  }

  // Adding a block.

  ghost predicate Allocated(c: Conc, h: Hist, c': Conc, h': Hist) {
    && c.p.PAlloc? && c.p.tb < |c.blocks|
    && |c'.blocks| == |c.blocks| + 1 && c'.blocks == c.blocks + [c'.blocks[|c.blocks|]]
    && c'.blocks[|c.blocks|].next == c.blocks[c.p.tb].next && Count(c'.blocks[|c.blocks|]) == 1
    && c' == c.(blocks := c'.blocks, largest := c'.largest, p := PLink(c.p.x, c.p.tb, |c.blocks|))
    && h'.puts == h.puts && h'.taken == h.taken && h'.chain == h.chain && h'.tp == h.tp
    && h'.pos == h.pos + [|h.puts|] && (h.sawEmpty ==> h'.sawEmpty) && h'.peak >= h.peak
  }

  lemma AllocOrder(c: Conc, h: Hist, c': Conc, h': Hist)
    requires RingOk(c.blocks, h.chain, h.tp) && |h.pos| == |c.blocks|
    requires OrderOk(c.blocks, h) && BeyondOk(c.blocks, h, c.p) && Allocated(c, h, c', h')
    ensures RingOk(c'.blocks, h'.chain, h'.tp) && OrderOk(c'.blocks, h') && BeyondOk(c'.blocks, h', c'.p)
  {
    assert RingOk(c'.blocks, h'.chain, h'.tp);
    assert forall i :: 0 <= i < |h.chain| ==>
      c'.blocks[h.chain[i]] == c.blocks[h.chain[i]] && h'.pos[h.chain[i]] == h.pos[h.chain[i]];
  }

  lemma AllocThreads(c: Conc, h: Hist, m: nat, c': Conc, h': Hist)
    requires RingOk(c.blocks, h.chain, h.tp) && |h.pos| == |c.blocks|
    requires ProducerOk(c, h, m) && ConsumerOk(c, h) && Allocated(c, h, c', h')
    requires RingOk(c'.blocks, h'.chain, h'.tp)
    ensures ProducerOk(c', h', m) && ConsumerOk(c', h')
  {
    assert c'.blocks[h.chain[h.tp]] == c.blocks[h.chain[h.tp]];
    assert c'.blocks[h.chain[0]] == c.blocks[h.chain[0]];
    if h.tp > 0 {
      assert c'.blocks[h.chain[1]] == c.blocks[h.chain[1]];
    }
  }

  lemma Alloc(c: Conc, h: Hist, n: nat, m: nat, e: Event)
    requires Inv(c, h, n, m) && Safe(c) && e.ProducerMoves? && c.p.PAlloc? && e.allocOk
    ensures Inv(Step(c, e), HistStep(c, h, e), n, m)
  {
    var c', h', id := Step(c, e), HistStep(c, h, e), |c.blocks|;
    assert Allocated(c, h, c', h');
    AllocOrder(c, h, c', h');
    AllocThreads(c, h, m, c', h');
    AllocBlocks(c, h, m, c', h');
  }

  lemma AllocBlocks(c: Conc, h: Hist, m: nat, c': Conc, h': Hist)
    requires Safe(c) && BlocksOk(c, h, m) && c.p.PAlloc? && m >= 1 && c.largest - 1 >= m
    requires c'.blocks == c.blocks + [NewBlock(c.p.x, GrownSize(c), c.blocks[c.p.tb].next)]
    requires c'.p == PLink(c.p.x, c.p.tb, |c.blocks|) && c'.c == c.c
    requires h'.puts == h.puts && h'.pos == h.pos + [|h.puts|]
    requires c.c.CStoreFront? ==> c.c.fb < |c.blocks|
    ensures BlocksOk(c', h', m)
  {
    forall i | 0 <= i < |c'.blocks|
      ensures BlockOk(c'.blocks[i], h'.pos[i], Stored(c', h'), Hole(c'.c, i), Extra(c'.p, i), m)
    {
      if i < |c.blocks| {
        assert BlockOk(c.blocks[i], h.pos[i], Stored(c, h), Hole(c.c, i), Extra(c.p, i), m);
        MoreStored(c.blocks[i], h.pos[i], Stored(c, h), Stored(c', h'), Hole(c.c, i), Extra(c.p, i), m);
      } else {
        assert i == |c.blocks|;
      }
    }
  }

  // Linking the new block into the ring.

  ghost predicate Inserted(chain: seq<nat>, tp: nat, nb: nat, chain': seq<nat>) {
    && |chain'| == |chain| + 1 && tp < |chain|
    && forall i {:trigger chain'[i]} :: 0 <= i < |chain'| ==>
         chain'[i] == if i <= tp then chain[i] else if i == tp + 1 then nb else chain[i - 1]
  }

  lemma InsertedAt(chain: seq<nat>, tp: nat, nb: nat, chain': seq<nat>, i: nat)
    requires Inserted(chain, tp, nb, chain') && i < |chain'|
    ensures i <= tp ==> chain'[i] == chain[i] && chain'[i] in chain
    ensures i == tp + 1 ==> chain'[i] == nb
    ensures i > tp + 1 ==> chain'[i] == chain[i - 1] && chain'[i] in chain
  {
  }

  lemma InsertBlock(bs: seq<Block>, chain: seq<nat>, tp: nat, nb: nat, chain': seq<nat>)
    requires RingOk(bs, chain, tp) && nb < |bs| && nb !in chain
    requires bs[nb].next == bs[chain[tp]].next && Inserted(chain, tp, nb, chain')
    ensures RingOk(bs[chain[tp] := bs[chain[tp]].(next := nb)], chain', tp)
  {
    var bs' := bs[chain[tp] := bs[chain[tp]].(next := nb)];
    forall i, j | 0 <= i < j < |chain'|
      ensures chain'[i] != chain'[j]
    {
      InsertedAt(chain, tp, nb, chain', i);
      InsertedAt(chain, tp, nb, chain', j);
    }
    forall i | 0 <= i < |chain'| - 1
      ensures bs'[chain'[i]].next == chain'[i + 1]
    {
      InsertedAt(chain, tp, nb, chain', i);
      InsertedAt(chain, tp, nb, chain', i + 1);
    }
    InsertedAt(chain, tp, nb, chain', 0);
    InsertedAt(chain, tp, nb, chain', |chain'| - 1);
  }

  lemma LinkOrder(bs: seq<Block>, h: Hist, p: Producer, bs': seq<Block>, h': Hist, p': Producer)
    requires RingOk(bs, h.chain, h.tp) && |h.pos| == |bs| && OrderOk(bs, h) && BeyondOk(bs, h, p)
    requires p.PLink? && p.nb < |bs| && p.nb !in h.chain && Count(bs[p.nb]) == 1
    requires p' == PStoreTailBlock(p.x, p.nb)
    requires Inserted(h.chain, h.tp, p.nb, h'.chain) && RingOk(bs', h'.chain, h'.tp)
    requires h'.pos == h.pos && h'.tp == h.tp && h'.puts == h.puts && h'.taken == h.taken
    requires bs' == bs[h.chain[h.tp] := bs[h.chain[h.tp]].(next := p.nb)]
    ensures OrderOk(bs', h') && BeyondOk(bs', h', p')
  {
    assert forall i :: 0 <= i < |bs| ==> Count(bs'[i]) == Count(bs[i]) && |bs'[i].data| == |bs[i].data|;
    assert forall i :: 0 <= i <= h.tp ==> h'.chain[i] == h.chain[i];
    forall i | h'.tp < i < |h'.chain|
      ensures Count(bs'[h'.chain[i]]) == if p'.nb == h'.chain[i] then 1 else 0
    {
      if i > h.tp + 1 {
        assert h'.chain[i] == h.chain[i - 1] && h.chain[i - 1] in h.chain;
      }
    }
  }

  lemma LinkThreads(c: Conc, h: Hist, m: nat, c': Conc, h': Hist)
    requires RingOk(c.blocks, h.chain, h.tp) && |h.pos| == |c.blocks| && c.p.PLink?
    requires ProducerOk(c, h, m) && ConsumerOk(c, h)
    requires c' == c.(blocks := c.blocks[c.p.tb := c.blocks[c.p.tb].(next := c.p.nb)],
                      p := PStoreTailBlock(c.p.x, c.p.nb))
    requires Inserted(h.chain, h.tp, c.p.nb, h'.chain) && RingOk(c'.blocks, h'.chain, h'.tp)
    requires h'.pos == h.pos && h'.tp == h.tp && h'.puts == h.puts && h'.taken == h.taken
    requires (h.sawEmpty ==> h'.sawEmpty) && h'.peak >= h.peak
    ensures ProducerOk(c', h', m) && ConsumerOk(c', h')
  {
    assert forall i :: 0 <= i <= h.tp ==> h'.chain[i] == h.chain[i];
    assert forall i :: 0 <= i < |c.blocks| ==> Count(c'.blocks[i]) == Count(c.blocks[i]);
  }

  lemma LinkCapacity(h: Hist, h': Hist, n: nat, m: nat)
    requires CapacityOk(h, n, m) && |h.chain| >= 1 && |h'.chain| == |h.chain| + 1
    ensures CapacityOk(h', n, m)
  {
    assert |h.chain| * m >= (|h.chain| - 1) * m;
  }

  lemma LinkBlocks(c: Conc, h: Hist, m: nat, c': Conc, h': Hist)
    requires BlocksOk(c, h, m) && c.p.PLink? && c.p.tb < |c.blocks|
    requires c' == c.(blocks := c.blocks[c.p.tb := c.blocks[c.p.tb].(next := c.p.nb)],
                      p := PStoreTailBlock(c.p.x, c.p.nb))
    requires h'.puts == h.puts && h'.pos == h.pos
    ensures BlocksOk(c', h', m)
  {
    var id := c.p.tb;
    assert BlockOk(c.blocks[id], h.pos[id], Stored(c, h), Hole(c.c, id), Extra(c.p, id), m);
    BlocksFrame(c, h, m, id, c', h');
  }

  lemma LinkRing(c: Conc, h: Hist, m: nat, c': Conc, h': Hist)
    requires RingOk(c.blocks, h.chain, h.tp) && |h.pos| == |c.blocks| && ProducerOk(c, h, m) && c.p.PLink?
    requires c'.blocks == c.blocks[c.p.tb := c.blocks[c.p.tb].(next := c.p.nb)]
    requires h'.chain == h.chain[..h.tp + 1] + [c.p.nb] + h.chain[h.tp + 1..] && h'.tp == h.tp
    ensures Inserted(h.chain, h.tp, c.p.nb, h'.chain)
    ensures RingOk(c'.blocks, h'.chain, h'.tp)
  {
    assert Inserted(h.chain, h.tp, c.p.nb, h'.chain);
    InsertBlock(c.blocks, h.chain, h.tp, c.p.nb, h'.chain);
  }

  lemma LinkShape(c: Conc, h: Hist, m: nat, c': Conc, h': Hist)
    requires RingOk(c.blocks, h.chain, h.tp) && |h.pos| == |c.blocks| && c.p.PLink?
    requires OrderOk(c.blocks, h) && BeyondOk(c.blocks, h, c.p) && ProducerOk(c, h, m) && ConsumerOk(c, h)
    requires c' == c.(blocks := c.blocks[c.p.tb := c.blocks[c.p.tb].(next := c.p.nb)],
                      p := PStoreTailBlock(c.p.x, c.p.nb))
    requires h'.chain == h.chain[..h.tp + 1] + [c.p.nb] + h.chain[h.tp + 1..]
    requires h'.pos == h.pos && h'.tp == h.tp && h'.puts == h.puts && h'.taken == h.taken
    requires (h.sawEmpty ==> h'.sawEmpty) && h'.peak >= h.peak
    ensures RingOk(c'.blocks, h'.chain, h'.tp) && OrderOk(c'.blocks, h') && BeyondOk(c'.blocks, h', c'.p)
    ensures ProducerOk(c', h', m) && ConsumerOk(c', h')
  {
    LinkRing(c, h, m, c', h');
    LinkOrder(c.blocks, h, c.p, c'.blocks, h', c'.p);
    LinkThreads(c, h, m, c', h');
  }

  lemma Link(c: Conc, h: Hist, n: nat, m: nat, e: Event)
    requires Inv(c, h, n, m) && Safe(c) && e.ProducerMoves? && c.p.PLink?
    ensures Inv(Step(c, e), HistStep(c, h, e), n, m)
  {
    var c', h' := Step(c, e), HistStep(c, h, e);
    LinkShape(c, h, m, c', h');
    LinkBlocks(c, h, m, c', h');
    LinkCapacity(h, h', n, m);
  }

  // Handing the tail over to the next block.

  lemma StoreTailBlockRest(c: Conc, h: Hist, m: nat, c': Conc, h': Hist)
    requires RingOk(c.blocks, h.chain, h.tp) && |h.pos| == |c.blocks| && c.p.PStoreTailBlock?
    requires OrderOk(c.blocks, h) && BeyondOk(c.blocks, h, c.p) && ProducerOk(c, h, m) && ConsumerOk(c, h)
    requires c' == c.(tailBlock := c.p.nb, p := PIdle)
    requires h'.puts == h.puts + [c.p.x] && h'.taken == h.taken && h'.chain == h.chain && h'.tp == h.tp + 1
    requires h'.pos == h.pos && (h.sawEmpty ==> h'.sawEmpty)
    ensures RingOk(c'.blocks, h'.chain, h'.tp) && OrderOk(c'.blocks, h') && BeyondOk(c'.blocks, h', c'.p)
    ensures ProducerOk(c', h', m) && ConsumerOk(c', h')
  {
    assert Count(c.blocks[h.chain[h.tp + 1]]) == 1;
    assert forall i :: h.tp + 1 < i < |h.chain| ==> h.chain[i] != c.p.nb;
  }

  lemma StoreTailBlock(c: Conc, h: Hist, n: nat, m: nat, e: Event)
    requires Inv(c, h, n, m) && Safe(c) && e.ProducerMoves? && c.p.PStoreTailBlock?
    ensures Inv(Step(c, e), HistStep(c, h, e), n, m)
  {
    var c', h', id := Step(c, e), HistStep(c, h, e), c.p.nb;
    StoreTailBlockRest(c, h, m, c', h');
    assert BlockOk(c.blocks[id], h.pos[id], Stored(c, h), Hole(c.c, id), Extra(c.p, id), m);
    BlocksFrame(c, h, m, id, c', h');
  }

  // Handing the front over to the next block.

  ghost predicate Rotated(chain: seq<nat>, chain': seq<nat>) {
    && |chain'| == |chain|
    && forall i {:trigger chain'[i]} :: 0 <= i < |chain'| ==>
         chain'[i] == if i < |chain| - 1 then chain[i + 1] else chain[0]
  }

  lemma Rotate(bs: seq<Block>, chain: seq<nat>, tp: nat, chain': seq<nat>)
    requires RingOk(bs, chain, tp) && tp > 0 && Rotated(chain, chain')
    ensures RingOk(bs, chain', tp - 1)
  {
  }

  lemma RotateOrder(bs: seq<Block>, h: Hist, p: Producer, h': Hist)
    requires RingOk(bs, h.chain, h.tp) && |h.pos| == |bs| && h.tp > 0
    requires OrderOk(bs, h) && BeyondOk(bs, h, p) && Count(bs[h.chain[0]]) == 0
    requires h'.pos == h.pos && h'.tp == h.tp - 1 && h'.puts == h.puts && h'.taken == h.taken
    requires Rotated(h.chain, h'.chain) && RingOk(bs, h'.chain, h'.tp)
    requires p.PStoreTailBlock? ==> p.nb != h.chain[0]
    ensures OrderOk(bs, h') && BeyondOk(bs, h', p)
  {
    assert h.pos[h.chain[0]] + Count(bs[h.chain[0]]) == h.pos[h.chain[1]];
    assert forall i :: 0 <= i <= h'.tp ==> h'.chain[i] == h.chain[i + 1];
    forall i | 0 <= i < h'.tp
      ensures h'.pos[h'.chain[i]] + Count(bs[h'.chain[i]]) == h'.pos[h'.chain[i + 1]]
    {
      assert h.pos[h.chain[i + 1]] + Count(bs[h.chain[i + 1]]) == h.pos[h.chain[i + 2]];
    }
  }

  lemma RotateProducer(c: Conc, h: Hist, m: nat, c': Conc, h': Hist)
    requires RingOk(c.blocks, h.chain, h.tp) && |h.pos| == |c.blocks| && h.tp > 0 && ProducerOk(c, h, m)
    requires h'.pos == h.pos && h'.tp == h.tp - 1 && h'.puts == h.puts && h'.peak >= h.peak
    requires Rotated(h.chain, h'.chain) && RingOk(c.blocks, h'.chain, h'.tp)
    requires c'.blocks == c.blocks && c'.p == c.p && c'.tailBlock == c.tailBlock
    ensures ProducerOk(c', h', m)
  {
    assert h'.chain[h'.tp] == h.chain[h.tp];
    if h.tp + 1 < |h.chain| {
      assert h'.chain[h'.tp + 1] == h.chain[h.tp + 1];
    }
    if c.p.PLink? {
      assert forall i :: 0 <= i < |h'.chain| ==> h'.chain[i] in h.chain;
    }
  }

  lemma StoreFrontBlock(c: Conc, h: Hist, n: nat, m: nat, e: Event)
    requires Inv(c, h, n, m) && Safe(c) && e.ConsumerMoves? && c.c.CStoreFrontBlock?
    ensures Inv(Step(c, e), HistStep(c, h, e), n, m)
  {
    var c', h', id := Step(c, e), HistStep(c, h, e), c.c.nb;
    Rotate(c.blocks, h.chain, h.tp, h'.chain);
    RotateOrder(c.blocks, h, c.p, h');
    RotateProducer(c, h, m, c', h');
    assert BlockOk(c.blocks[id], h.pos[id], Stored(c, h), Hole(c.c, id), Extra(c.p, id), m);
    BlocksFrame(c, h, m, id, c', h');
  }

  // Advancing past an element.

  lemma StoreFrontOrder(bs: seq<Block>, h: Hist, p: Producer, b': Block, h': Hist)
    requires RingOk(bs, h.chain, h.tp) && |h.pos| == |bs| && OrderOk(bs, h) && BeyondOk(bs, h, p)
    requires h'.puts == h.puts && |h'.taken| == |h.taken| + 1 && h'.chain == h.chain && h'.tp == h.tp
    requires h'.pos == h.pos[h.chain[0] := h.pos[h.chain[0]] + 1]
    requires var b := bs[h.chain[0]];
             b'.next == b.next && |b'.data| == |b.data| && Count(b') == Count(b) - 1
    ensures var bs' := bs[h.chain[0] := b'];
            RingOk(bs', h'.chain, h'.tp) && OrderOk(bs', h') && BeyondOk(bs', h', p)
  {
    RingFrame(bs, h.chain[0], b', h.chain, h.tp);
  }

  lemma StoreFrontProducer(c: Conc, h: Hist, m: nat, c': Conc, h': Hist)
    requires RingOk(c.blocks, h.chain, h.tp) && |h.pos| == |c.blocks| && ProducerOk(c, h, m)
    requires h'.puts == h.puts && h'.chain == h.chain && h'.tp == h.tp && h'.peak >= h.peak
    requires h'.pos == h.pos[h.chain[0] := h.pos[h.chain[0]] + 1]
    requires var id := h.chain[0];
             |c'.blocks| == |c.blocks| && c'.blocks == c.blocks[id := c.blocks[id].(front := c'.blocks[id].front)]
    requires c'.p == c.p && c'.tailBlock == c.tailBlock && RingOk(c'.blocks, h'.chain, h'.tp)
    ensures ProducerOk(c', h', m)
  {
    if c.p.PLink? {
      assert h.chain[0] in h.chain;
    }
  }

  lemma StoreFront(c: Conc, h: Hist, n: nat, m: nat, e: Event)
    requires Inv(c, h, n, m) && Safe(c) && e.ConsumerMoves? && c.c.CStoreFront?
    ensures Inv(Step(c, e), HistStep(c, h, e), n, m)
  {
    var c', h', id := Step(c, e), HistStep(c, h, e), c.c.fb;
    assert BlockOk(c.blocks[id], h.pos[id], Stored(c, h), Hole(c.c, id), Extra(c.p, id), m);
    AdvanceFront(c.blocks[id], h.pos[id], Stored(c, h), Extra(c.p, id), m);
    StoreFrontOrder(c.blocks, h, c.p, c'.blocks[id], h');
    StoreFrontProducer(c, h, m, c', h');
    BlocksFrame(c, h, m, id, c', h');
  }

  // Reading the next block's tail, and moving an element out.

  lemma NextBlockCount(bs: seq<Block>, h: Hist)
    requires RingOk(bs, h.chain, h.tp) && |h.pos| == |bs| && OrderOk(bs, h) && h.tp > 0
    requires |bs[h.chain[1]].data| >= 2
    ensures Count(bs[h.chain[1]]) >= 1
  {
  }

  lemma LoadNextTail(c: Conc, h: Hist, n: nat, m: nat, e: Event)
    requires Inv(c, h, n, m) && Safe(c) && e.ConsumerMoves? && c.c.CLoadNextTail? && !c.c.op.Peek?
    ensures Inv(Step(c, e), HistStep(c, h, e), n, m)
  {
    var c', h', id := Step(c, e), HistStep(c, h, e), c.c.nb;
    assert BlockOk(c.blocks[id], h.pos[id], Stored(c, h), Hole(c.c, id), Extra(c.p, id), m);
    NextBlockCount(c.blocks, h);
    RefreshLocalTail(c.blocks[id], h.pos[id], Stored(c, h), Hole(c.c, id), Extra(c.p, id), m);
    OneBlock(c, h, n, m, id, c', h');
    ProducerFrame(c, h, m, id, c', h');
  }

  lemma PeekNextBlock(c: Conc, h: Hist, n: nat, m: nat, e: Event)
    requires Inv(c, h, n, m) && Safe(c) && e.ConsumerMoves? && c.c.CLoadNextTail? && c.c.op.Peek?
    ensures Inv(Step(c, e), HistStep(c, h, e), n, m)
  {
    var c', h', id := Step(c, e), HistStep(c, h, e), c.c.nb;
    assert BlockOk(c.blocks[id], h.pos[id], Stored(c, h), Hole(c.c, id), Extra(c.p, id), m);
    NextBlockCount(c.blocks, h);
    NoBlock(c, h, n, m, c', h');
    assert c'.blocks == c.blocks[id := c.blocks[id]];
    ProducerFrame(c, h, m, id, c', h');
  }

  lemma FrontPosition(c: Conc, h: Hist)
    requires RingOk(c.blocks, h.chain, h.tp) && |h.pos| == |c.blocks| && OrderOk(c.blocks, h)
    requires ConsumerOk(c, h) && c.c.CRead?
    ensures h.pos[c.c.fb] == |h.taken| < |h.puts|
  {
    assert h.pos[h.chain[0]] + Count(c.blocks[h.chain[0]]) <= |h.puts|;
    if h.tp > 0 {
      assert h.pos[h.chain[0]] + Count(c.blocks[h.chain[0]]) == h.pos[h.chain[1]];
      assert h.pos[h.chain[1]] + Count(c.blocks[h.chain[1]]) <= |h.puts|;
    }
  }

  lemma ReadValue(c: Conc, h: Hist, n: nat, m: nat)
    requires Inv(c, h, n, m) && Safe(c) && c.c.CRead?
    ensures |h.taken| < |h.puts| && c.blocks[c.c.fb].data[c.c.bf] == Some(h.puts[|h.taken|])
  {
    var id := c.c.fb;
    assert BlockOk(c.blocks[id], h.pos[id], Stored(c, h), Hole(c.c, id), Extra(c.p, id), m);
    TakeSlot(c.blocks[id], h.pos[id], Stored(c, h), Extra(c.p, id), m);
    FrontPosition(c, h);
  }

  lemma Read(c: Conc, h: Hist, n: nat, m: nat, e: Event)
    requires Inv(c, h, n, m) && Safe(c) && e.ConsumerMoves? && c.c.CRead? && !c.c.op.Peek?
    ensures Inv(Step(c, e), HistStep(c, h, e), n, m)
  {
    var c', h', id := Step(c, e), HistStep(c, h, e), c.c.fb;
    assert BlockOk(c.blocks[id], h.pos[id], Stored(c, h), Hole(c.c, id), Extra(c.p, id), m);
    ReadValue(c, h, n, m);
    TakeSlot(c.blocks[id], h.pos[id], Stored(c, h), Extra(c.p, id), m);
    OneBlock(c, h, n, m, id, c', h');
    ProducerFrame(c, h, m, id, c', h');
  }

  lemma PeekDone(c: Conc, h: Hist, n: nat, m: nat, e: Event)
    requires Inv(c, h, n, m) && Safe(c) && e.ConsumerMoves? && c.c.CRead? && c.c.op.Peek?
    ensures Inv(Step(c, e), HistStep(c, h, e), n, m)
  {
    var c', h', id := Step(c, e), HistStep(c, h, e), c.c.fb;
    NoBlock(c, h, n, m, c', h');
    assert c'.blocks == c.blocks[id := c.blocks[id]];
    ProducerFrame(c, h, m, id, c', h');
  }
}
