/** Frame lemmas: a step touches one block or one thread's locals, and the rest of the invariant stays. */
module SpscFrames {
  import opened Options
  import opened SpscQueue
  import opened SpscInvariant

  /** The history after a step that accepts, takes, links and moves nothing. */
  predicate SameHistory(h: Hist, h': Hist) {
    && h'.puts == h.puts && h'.taken == h.taken && h'.chain == h.chain && h'.tp == h.tp && h'.pos == h.pos
    && h'.peak >= Held(h')
  }

  predicate SameShape(b: Block, b': Block) {
    |b'.data| == |b.data| && b'.next == b.next && Count(b') == Count(b)
  }

  lemma RingFrame(bs: seq<Block>, id: nat, b': Block, chain: seq<nat>, tp: nat)
    requires RingOk(bs, chain, tp) && id < |bs| && b'.next == bs[id].next
    ensures RingOk(bs[id := b'], chain, tp)
  {
  }

  lemma ShapeFrame(bs: seq<Block>, id: nat, b': Block, h: Hist, h': Hist, p: Producer, p': Producer)
    requires RingOk(bs, h.chain, h.tp) && |h.pos| == |bs| && OrderOk(bs, h) && BeyondOk(bs, h, p)
    requires id < |bs| && SameShape(bs[id], b') && SameHistory(h, h')
    requires p == p' || (!p.PStoreTailBlock? && !p'.PStoreTailBlock?)
    ensures RingOk(bs[id := b'], h'.chain, h'.tp)
    ensures OrderOk(bs[id := b'], h') && BeyondOk(bs[id := b'], h', p')
  {
    RingFrame(bs, id, b', h.chain, h.tp);
    var bs' := bs[id := b'];
    assert forall i :: 0 <= i < |bs| ==> Count(bs'[i]) == Count(bs[i]) && |bs'[i].data| == |bs[i].data|;
  }

  lemma BlocksFrame(c: Conc, h: Hist, m: nat, id: nat, c': Conc, h': Hist)
    requires BlocksOk(c, h, m) && id < |c.blocks| && |c'.blocks| == |c.blocks|
    requires |h'.pos| == |h.pos| && Stored(c, h) <= Stored(c', h')
    requires forall i :: 0 <= i < |c.blocks| && i != id ==>
               && c'.blocks[i] == c.blocks[i] && h'.pos[i] == h.pos[i]
               && Hole(c'.c, i) == Hole(c.c, i) && Extra(c'.p, i) == Extra(c.p, i)
    requires BlockOk(c'.blocks[id], h'.pos[id], Stored(c', h'), Hole(c'.c, id), Extra(c'.p, id), m)
    ensures BlocksOk(c', h', m)
  {
    forall i | 0 <= i < |c'.blocks|
      ensures BlockOk(c'.blocks[i], h'.pos[i], Stored(c', h'), Hole(c'.c, i), Extra(c'.p, i), m)
    {
      if i != id {
        assert BlockOk(c.blocks[i], h.pos[i], Stored(c, h), Hole(c.c, i), Extra(c.p, i), m);
        MoreStored(c.blocks[i], h.pos[i], Stored(c, h), Stored(c', h'), Hole(c.c, i), Extra(c.p, i), m);
      }
    }
  }

  lemma MoreStored(b: Block, pos: nat, puts: seq<Elem>, puts': seq<Elem>, hole: bool, extra: Option<Elem>, m: nat)
    requires BlockOk(b, pos, puts, hole, extra, m) && puts <= puts'
    ensures BlockOk(b, pos, puts', hole, extra, m)
  {
  }

  /** A step that replaces one block by one of the same shape keeps all but the threads' own facts. */
  lemma OneBlock(c: Conc, h: Hist, n: nat, m: nat, id: nat, c': Conc, h': Hist)
    requires Inv(c, h, n, m) && SameHistory(h, h')
    requires id < |c.blocks| && |c'.blocks| == |c.blocks| && c'.largest == c.largest
    requires c'.blocks == c.blocks[id := c'.blocks[id]]
    requires SameShape(c.blocks[id], c'.blocks[id])
    requires c'.p == c.p || (!c.p.PStoreTailBlock? && !c'.p.PStoreTailBlock? && !c.p.PLink? && !c'.p.PLink?)
    requires forall i :: 0 <= i < |c.blocks| && i != id ==>
               Hole(c'.c, i) == Hole(c.c, i) && Extra(c'.p, i) == Extra(c.p, i)
    requires BlockOk(c'.blocks[id], h.pos[id], Stored(c', h'), Hole(c'.c, id), Extra(c'.p, id), m)
    ensures RingOk(c'.blocks, h'.chain, h'.tp) && |h'.pos| == |c'.blocks|
    ensures ProducerOk(c', h', m) && ConsumerOk(c', h') ==> Inv(c', h', n, m)
  {
    ShapeFrame(c.blocks, id, c'.blocks[id], h, h', c.p, c'.p);
    BlocksFrame(c, h, m, id, c', h');
  }

  /** A step that changes only a thread's locals. */
  lemma NoBlock(c: Conc, h: Hist, n: nat, m: nat, c': Conc, h': Hist)
    requires Inv(c, h, n, m) && SameHistory(h, h')
    requires c'.blocks == c.blocks && c'.largest == c.largest
    requires c'.p == c.p || (!c.p.PStoreTailBlock? && !c'.p.PStoreTailBlock? && !c.p.PLink? && !c'.p.PLink?)
    requires forall i :: 0 <= i < |c.blocks| ==> Hole(c'.c, i) == Hole(c.c, i) && Extra(c'.p, i) == Extra(c.p, i)
    ensures RingOk(c'.blocks, h'.chain, h'.tp) && |h'.pos| == |c'.blocks|
    ensures ProducerOk(c', h', m) && ConsumerOk(c', h') ==> Inv(c', h', n, m)
  {
    var id := h.chain[0];
    assert BlockOk(c.blocks[id], h.pos[id], Stored(c, h), Hole(c.c, id), Extra(c.p, id), m);
    assert c'.blocks == c.blocks[id := c.blocks[id]];
    OneBlock(c, h, n, m, id, c', h');
  }

  /** The producer's facts survive a consumer step that keeps the counts and what the producer has read. */
  lemma ProducerFrame(c: Conc, h: Hist, m: nat, id: nat, c': Conc, h': Hist)
    requires RingOk(c.blocks, h.chain, h.tp) && |h.pos| == |c.blocks| && ProducerOk(c, h, m)
    requires id < |c.blocks| && |c'.blocks| == |c.blocks| && c'.p == c.p && c'.tailBlock == c.tailBlock
    requires c'.blocks == c.blocks[id := c'.blocks[id]]
    requires SameShape(c.blocks[id], c'.blocks[id]) && SameHistory(h, h') && h'.peak >= h.peak
    requires var b, b' := c.blocks[id], c'.blocks[id];
             b'.front == b.front && b'.tail == b.tail && b'.localFront == b.localFront
    ensures RingOk(c'.blocks, h'.chain, h'.tp) && ProducerOk(c', h', m)
  {
    RingFrame(c.blocks, id, c'.blocks[id], h.chain, h.tp);
  }

  lemma ConsumerFrame(c: Conc, h: Hist, id: nat, c': Conc, h': Hist)
    requires RingOk(c.blocks, h.chain, h.tp) && |h.pos| == |c.blocks| && ConsumerOk(c, h)
    requires id < |c.blocks| && |c'.blocks| == |c.blocks| && c'.c == c.c && c'.frontBlock == c.frontBlock
    requires c'.blocks == c.blocks[id := c'.blocks[id]]
    requires SameShape(c.blocks[id], c'.blocks[id]) && SameHistory(h, h') && (h.sawEmpty ==> h'.sawEmpty)
    requires var b, b' := c.blocks[id], c'.blocks[id];
             b'.front == b.front && b'.tail == b.tail && b'.localTail == b.localTail
    ensures RingOk(c'.blocks, h'.chain, h'.tp) && ConsumerOk(c', h')
  {
    RingFrame(c.blocks, id, c'.blocks[id], h.chain, h.tp);
  }
}
