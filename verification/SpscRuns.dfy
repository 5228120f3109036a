/** The constructor, the runs of the queue, and what holds of every run. */
module SpscRuns {
  import opened Options
  import opened PowersOfTwo
  import opened SpscQueue
  import opened SpscInvariant
  import opened SpscSteps
  import opened SpscMoves

  // ---------------------------------------------------------------------------------------------
  // Construction
  // ---------------------------------------------------------------------------------------------

  function EmptyBlock(size: nat, next: nat): Block {
    Block(0, 0, 0, 0, next, seq(size, i => None))
  }

  /** `count` empty blocks of `size` slots each, linked into a ring. */
  function EmptyRing(count: nat, size: nat): seq<Block> {
    seq(count, (i: nat) => EmptyBlock(size, if i + 1 == count then 0 else i + 1))
  }

  /** Sizes the constructor works with are representable, and MAX_BLOCK_SIZE is a power of two above 1. */
  ghost predicate ArgumentsOk(n: nat, maxBlock: nat) {
    IsPow2(maxBlock) && 2 <= maxBlock && n + 1 <= WORD / 2 && n + 2 * maxBlock < WORD
  }

  /** `(size + MAX_BLOCK_SIZE * 2 - 3) / (MAX_BLOCK_SIZE - 1)`, with `d` slots usable in a block. */
  function BlockCount(n: nat, d: nat): nat
    requires d >= 1
  {
    var k := (n + 2 * d - 1) / d;
    assert n + 2 * d - 1 == k * d + (n + 2 * d - 1) % d;
    k
  }

  /** `rounded` is `ceilToPow2(n + 1)`. */
  function Layout(rounded: nat, n: nat, maxBlock: nat): Conc
    requires maxBlock >= 2
  {
    if rounded > maxBlock * 2 then
      Conc(EmptyRing(BlockCount(n, maxBlock - 1), maxBlock), 0, 0, maxBlock, maxBlock, PIdle, CIdle)
    else
      Conc(EmptyRing(1, rounded), 0, 0, rounded, maxBlock, PIdle, CIdle)
  }

  function Initial(n: nat, maxBlock: nat): Conc
    requires maxBlock >= 2 && n + 1 < WORD
  {
    Layout(CeilToPow2(n + 1), n, maxBlock)
  }

  /** The constructor: one block, or a ring of blocks of the maximum size linked one by one. */
  method Construct(n: nat, maxBlock: nat) returns (c: Conc)
    requires ArgumentsOk(n, maxBlock)
    ensures c == Initial(n, maxBlock)
  {
    var rounded := CeilToPow2(n + 1);
    c := LinkBlocks(rounded, n, maxBlock);
  }

  method LinkBlocks(rounded: nat, n: nat, maxBlock: nat) returns (c: Conc)
    requires maxBlock >= 2
    ensures c == Layout(rounded, n, maxBlock)
  {
    if rounded > maxBlock * 2 {
      var blocks := Ring(BlockCount(n, maxBlock - 1), maxBlock);
      c := Conc(blocks, 0, 0, maxBlock, maxBlock, PIdle, CIdle);
    } else {
      var blocks := Ring(1, rounded);
      c := Conc(blocks, 0, 0, rounded, maxBlock, PIdle, CIdle);
    }
  }

  method Ring(count: nat, size: nat) returns (blocks: seq<Block>)
    ensures blocks == EmptyRing(count, size)
  {
    blocks := [];
    var i := 0;
    while i != count
      invariant 0 <= i <= count && |blocks| == i
      invariant forall j :: 0 <= j < i ==> blocks[j] == EmptyBlock(size, if j + 1 == i then 0 else j + 1)
    {
      if i > 0 {
        blocks := blocks[i - 1 := blocks[i - 1].(next := i)];
      }
      blocks := blocks + [EmptyBlock(size, 0)];
      i := i + 1;
    }
  }

  function InitialHist(c: Conc): Hist {
    Hist([], [], seq(|c.blocks|, i => i), 0, seq(|c.blocks|, i => 0), true, 0)
  }

  /** The block count solves `(count - 1) * d >= n`. */
  lemma BlockCountSuffices(n: nat, d: nat)
    requires d >= 1
    ensures (BlockCount(n, d) - 1) * d >= n
  {
    var k := BlockCount(n, d);
    assert n + 2 * d - 1 == k * d + (n + 2 * d - 1) % d;
    assert (k - 1) * d == k * d - d;
  }

  ghost predicate EmptyOk(c: Conc, size: nat) {
    && |c.blocks| >= 1 && c.blocks == EmptyRing(|c.blocks|, size)
    && c.frontBlock == 0 && c.tailBlock == 0 && c.p == PIdle && c.c == CIdle && c.largest == size
  }

  lemma LayoutOk(rounded: nat, n: nat, maxBlock: nat) returns (size: nat)
    requires maxBlock >= 2 && rounded >= n + 1
    ensures size == rounded || size == maxBlock
    ensures var c := Layout(rounded, n, maxBlock);
            && EmptyOk(c, size)
            && (|c.blocks| == 1 ==> size - 1 >= n)
            && (|c.blocks| >= 2 ==> (|c.blocks| - 1) * (size - 1) >= n)
    ensures n >= 1 ==> size >= 2
  {
    var c := Layout(rounded, n, maxBlock);
    if rounded > maxBlock * 2 {
      size := maxBlock;
      BlockCountSuffices(n, maxBlock - 1);
      if |c.blocks| <= 1 {
        assert (|c.blocks| - 1) * (maxBlock - 1) <= 0;
      }
    } else {
      size := rounded;
    }
  }

  lemma EmptyBlocksAre(c: Conc, size: nat)
    requires EmptyOk(c, size)
    ensures forall i {:trigger c.blocks[i]} :: 0 <= i < |c.blocks| ==>
              c.blocks[i] == EmptyBlock(size, if i + 1 == |c.blocks| then 0 else i + 1)
  {
    forall i | 0 <= i < |c.blocks|
      ensures c.blocks[i] == EmptyBlock(size, if i + 1 == |c.blocks| then 0 else i + 1)
    {
      assert c.blocks[i] == EmptyRing(|c.blocks|, size)[i];
    }
  }

  lemma EmptyRingOk(c: Conc, h: Hist, size: nat)
    requires EmptyOk(c, size) && size >= 2
    requires |h.chain| == |c.blocks| && h.tp == 0 && forall i :: 0 <= i < |h.chain| ==> h.chain[i] == i
    ensures RingOk(c.blocks, h.chain, h.tp)
  {
    EmptyBlocksAre(c, size);
  }

  lemma EmptyBlocksOk(c: Conc, h: Hist, size: nat)
    requires EmptyOk(c, size) && size >= 2
    requires |h.pos| == |c.blocks| && h.puts == []
    requires forall i :: 0 <= i < |h.pos| ==> h.pos[i] == 0
    ensures BlocksOk(c, h, size - 1)
    ensures forall i {:trigger c.blocks[i]} :: 0 <= i < |c.blocks| ==> Count(c.blocks[i]) == 0
  {
    EmptyBlocksAre(c, size);
  }

  lemma EmptyInv(c: Conc, n: nat, size: nat)
    requires EmptyOk(c, size) && size >= 2
    requires |c.blocks| == 1 ==> size - 1 >= n
    requires |c.blocks| >= 2 ==> (|c.blocks| - 1) * (size - 1) >= n
    ensures Inv(c, InitialHist(c), n, size - 1)
  {
    var h := InitialHist(c);
    EmptyRingOk(c, h, size);
    EmptyBlocksOk(c, h, size);
  }
}
