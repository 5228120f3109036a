/** What each kind of write does to a single block. */
module SpscBlocks {
  import opened Options
  import opened SpscQueue
  import opened SpscInvariant

  /** The consumer refreshes its shadow of `tail`. */
  lemma RefreshLocalTail(b: Block, pos: nat, puts: seq<Elem>, hole: bool, extra: Option<Elem>, m: nat)
    requires BlockOk(b, pos, puts, hole, extra, m)
    ensures BlockOk(b.(localTail := b.tail), pos, puts, hole, extra, m)
  {
  }

  /** The producer refreshes its shadow of `front`. */
  lemma RefreshLocalFront(b: Block, pos: nat, puts: seq<Elem>, hole: bool, extra: Option<Elem>, m: nat)
    requires BlockOk(b, pos, puts, hole, extra, m)
    ensures BlockOk(b.(localFront := b.front), pos, puts, hole, extra, m)
  {
  }

  /** The producer constructs an element in the slot at `tail`, which holds no live object. */
  lemma WriteSlot(b: Block, pos: nat, puts: seq<Elem>, hole: bool, x: Elem, m: nat)
    requires BlockOk(b, pos, puts, hole, None, m)
    ensures b.data[b.tail] == None
    ensures BlockOk(b.(data := b.data[b.tail := Some(x)]), pos, puts, hole, Some(x), m)
  {
  }

  /** The producer publishes that element in a block that is not full by its shadow index. */
  lemma PublishSlot(b: Block, pos: nat, puts: seq<Elem>, hole: bool, x: Elem, m: nat)
    requires BlockOk(b, pos, puts, hole, Some(x), m)
    requires pos + Count(b) == |puts| && Inc(b.tail, |b.data|) != b.localFront
    requires hole ==> Count(b) >= 1
    ensures var b' := b.(tail := Inc(b.tail, |b.data|));
            BlockOk(b', pos, puts + [x], hole, None, m) && Count(b') == Count(b) + 1
  {
    var b' := b.(tail := Inc(b.tail, |b.data|));
    assert Count(b') == Count(b) + 1;
    forall j | 0 <= j < |b.data|
      ensures b'.data[j] == Expected(b', pos, puts + [x], hole, None, j)
    {
      assert b.data[j] == Expected(b, pos, puts, hole, Some(x), j);
    }
  }

  /** The producer publishes into an empty block, whose front element gets the next free number. */
  lemma PublishFirst(b: Block, pos: nat, puts: seq<Elem>, x: Elem, m: nat)
    requires BlockOk(b, pos, puts, false, Some(x), m)
    requires b.front == b.localFront == b.tail
    ensures var b' := b.(tail := Inc(b.tail, |b.data|));
            BlockOk(b', |puts|, puts + [x], false, None, m) && Count(b') == 1
  {
    var b' := b.(tail := Inc(b.tail, |b.data|));
    assert Count(b') == 1;
    forall j | 0 <= j < |b.data|
      ensures b'.data[j] == Expected(b', |puts|, puts + [x], false, None, j)
    {
      assert b.data[j] == Expected(b, pos, puts, false, Some(x), j);
    }
  }

  /** The consumer moves the front element out. */
  lemma TakeSlot(b: Block, pos: nat, puts: seq<Elem>, extra: Option<Elem>, m: nat)
    requires BlockOk(b, pos, puts, false, extra, m) && Count(b) >= 1
    ensures b.data[b.front] == Some(puts[pos])
    ensures BlockOk(b.(data := b.data[b.front := None]), pos, puts, true, extra, m)
  {
  }

  /** The consumer advances past the element it moved out. */
  lemma AdvanceFront(b: Block, pos: nat, puts: seq<Elem>, extra: Option<Elem>, m: nat)
    requires BlockOk(b, pos, puts, true, extra, m) && Count(b) >= 1 && b.front != b.localTail
    ensures var b' := b.(front := Inc(b.front, |b.data|));
            BlockOk(b', pos + 1, puts, false, extra, m) && Count(b') == Count(b) - 1
  {
    var b' := b.(front := Inc(b.front, |b.data|));
    assert Count(b') == Count(b) - 1;
    forall j | 0 <= j < |b.data|
      ensures b'.data[j] == Expected(b', pos + 1, puts, false, extra, j)
    {
      assert b.data[j] == Expected(b, pos, puts, true, extra, j);
    }
  }
}
