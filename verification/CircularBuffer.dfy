/**
 The blocking circular buffer: a producer and a consumer, an array, and two semaphores that count the
 free slots and the stored items. The producer waits on the first and signals the second, the
 consumer the other way round. Every access to a semaphore is one step.
*/
module CircularBuffer {
  import opened Options
  import opened PowersOfTwo
  import Sema = Semaphore

  type Elem(==, !new)

  datatype Producer = PIdle | PWaiting(x: Elem) | PWrite(x: Elem) | PSignalling
  datatype Consumer = CIdle | CWaiting | CRead | CSignalling

  /** `puts` and `gets` are history: the elements stored and the elements handed out. */
  datatype Buffer = Buffer(
    maxcap: nat, mask: nat, data: seq<Option<Elem>>, slots: Sema.Sem, items: Sema.Sem,
    nextSlot: nat, nextItem: nat, p: Producer, c: Consumer, puts: seq<Elem>, gets: seq<Elem>)

  /** The constructor rounds the capacity up to a power of two; capacity 0 allocates nothing. */
  function Make(capacity: nat): Buffer
    requires capacity < WORD
  {
    var mask := SmearAll((capacity + WORD - 1) % WORD);
    WithMask(capacity, mask, (mask + 1) % WORD)
  }

  function WithMask(capacity: nat, mask: nat, size: nat): Buffer {
    Buffer(capacity, mask, seq(size, i => None),
           Sema.Fresh(capacity), Sema.Fresh(0), 0, 0, PIdle, CIdle, [], [])
  }

  datatype Event =
    | BeginEnqueue(x: Elem, patience: Sema.Patience)
    | ProducerMoves(gaveUp: bool)
    | BeginDequeue(patience: Sema.Patience)
    | ConsumerMoves(gaveUp: bool)

  /** The slots the next steps touch exist, and the one to be read holds an object. */
  predicate Safe(b: Buffer) {
    && (b.p.PWrite? ==> And(b.nextSlot, b.mask) < |b.data|)
    && (b.c.CRead? ==> And(b.nextItem, b.mask) < |b.data| && b.data[And(b.nextItem, b.mask)].Some?)
  }

  function ProducerStep(b: Buffer, gaveUp: bool): Buffer
    requires Safe(b)
  {
    match b.p
    case PIdle => b
    case PWaiting(x) =>
      var slots := Sema.WaiterStep(b.slots, gaveUp);
      b.(slots := slots,
         p := if !slots.w.WIdle? then b.p else if slots.taken > b.slots.taken then PWrite(x) else PIdle)
    case PWrite(x) =>
      b.(data := b.data[And(b.nextSlot, b.mask) := Some(x)], nextSlot := b.nextSlot + 1,
         puts := b.puts + [x], items := Sema.BeginSignal(b.items, 1), p := PSignalling)
    case PSignalling =>
      var items := Sema.SignallerStep(b.items);
      b.(items := items, p := if items.s.SIdle? then PIdle else PSignalling)
  }

  function ConsumerStep(b: Buffer, gaveUp: bool): Buffer
    requires Safe(b)
  {
    match b.c
    case CIdle => b
    case CWaiting =>
      var items := Sema.WaiterStep(b.items, gaveUp);
      b.(items := items,
         c := if !items.w.WIdle? then CWaiting else if items.taken > b.items.taken then CRead else CIdle)
    case CRead =>
      var i := And(b.nextItem, b.mask);
      b.(data := b.data[i := None], nextItem := b.nextItem + 1,
         gets := b.gets + [b.data[i].value], slots := Sema.BeginSignal(b.slots, 1), c := CSignalling)
    case CSignalling =>
      var slots := Sema.SignallerStep(b.slots);
      b.(slots := slots, c := if slots.s.SIdle? then CIdle else CSignalling)
  }

  function Step(b: Buffer, e: Event): Buffer
    requires Safe(b)
  {
    match e
    case BeginEnqueue(x, patience) =>
      if b.p.PIdle? then b.(slots := Sema.BeginWait(b.slots, patience), p := PWaiting(x)) else b
    case ProducerMoves(gaveUp) => ProducerStep(b, gaveUp)
    case BeginDequeue(patience) =>
      if b.c.CIdle? then b.(items := Sema.BeginWait(b.items, patience), c := CWaiting) else b
    case ConsumerMoves(gaveUp) => ConsumerStep(b, gaveUp)
  }

  // ---------------------------------------------------------------------------------------------
  // The invariant
  // ---------------------------------------------------------------------------------------------

  function Dist(a: nat, b: nat, size: nat): int {
    if b >= a then b - a else b + size - a
  }

  ghost predicate SizeOk(b: Buffer) {
    b.maxcap >= 1 ==> b.maxcap <= |b.data| && b.mask + 1 == |b.data| && IsPow2(|b.data|)
  }

  /** Slot `j` holds the element whose number falls on it, if that element is stored. */
  ghost predicate DataOk(data: seq<Option<Elem>>, nextItem: nat, puts: seq<Elem>) {
    forall j :: 0 <= j < |data| ==>
      var d := Dist(Rem(nextItem, |data|), j, |data|);
      data[j] == if nextItem + d < |puts| then Some(puts[nextItem + d]) else None
  }

  predicate ThreadsOk(b: Buffer) {
    && (b.p.PWaiting? <==> !b.slots.w.WIdle?) && (b.p.PSignalling? <==> !b.items.s.SIdle?)
    && (b.c.CWaiting? <==> !b.items.w.WIdle?) && (b.c.CSignalling? <==> !b.slots.s.SIdle?)
    && (b.items.s.SAdd? ==> b.items.s.k == 1) && (b.slots.s.SAdd? ==> b.slots.s.k == 1)
  }

  /** The permits handed over on either side match the two indices. */
  predicate CountsOk(b: Buffer) {
    && b.slots.taken == b.nextSlot + (if b.p.PWrite? then 1 else 0)
    && b.items.signalled == b.nextSlot - (if b.items.s.SAdd? then 1 else 0)
    && b.items.taken == b.nextItem + (if b.c.CRead? then 1 else 0)
    && b.slots.signalled == b.nextItem - (if b.slots.s.SAdd? then 1 else 0)
    && |b.puts| == b.nextSlot && |b.gets| == b.nextItem && b.gets <= b.puts
  }

  predicate BooksOk(b: Buffer) {
    && b.slots.initial == b.maxcap && b.items.initial == 0 && Sema.Inv(b.slots) && Sema.Inv(b.items)
    && ThreadsOk(b) && CountsOk(b)
  }

  ghost predicate StoreOk(b: Buffer) {
    b.maxcap >= 1 ==> DataOk(b.data, b.nextItem, b.puts)
  }

  ghost predicate Inv(b: Buffer) {
    SizeOk(b) && BooksOk(b) && StoreOk(b)
  }

  lemma {:induction false} RemDist(a: nat, d: nat, size: nat)
    requires d < size
    ensures Dist(Rem(a, size), Rem(a + d, size), size) == d
  {
    if d > 0 {
      RemDist(a, d - 1, size);
      RemStep(a + d - 1, size);
    }
  }

  lemma MaskIndex(b: Buffer, i: nat)
    requires SizeOk(b) && b.maxcap >= 1
    ensures And(i, b.mask) == Rem(i, |b.data|)
  {
    var k := Log2(|b.data|);
    MaskIsRem(i, k);
  }

  /** The element about to be stored finds an empty slot, and the one about to be read is there. */
  lemma SlotsReady(b: Buffer)
    requires Inv(b)
    ensures Safe(b)
    ensures b.nextItem <= b.nextSlot <= b.nextItem + b.maxcap
    ensures b.p.PWrite? ==> b.nextSlot < b.nextItem + b.maxcap && b.data[And(b.nextSlot, b.mask)] == None
    ensures b.c.CRead? ==> b.nextItem < b.nextSlot
                           && b.data[And(b.nextItem, b.mask)] == Some(b.puts[b.nextItem])
  {
    if b.p.PWrite? {
      MaskIndex(b, b.nextSlot);
      RemDist(b.nextItem, b.nextSlot - b.nextItem, |b.data|);
    }
    if b.c.CRead? {
      MaskIndex(b, b.nextItem);
    }
  }

  lemma StoreKeepsData(data: seq<Option<Elem>>, nextItem: nat, puts: seq<Elem>, x: Elem)
    requires |data| > 0 && DataOk(data, nextItem, puts) && nextItem <= |puts| < nextItem + |data|
    ensures DataOk(data[Rem(|puts|, |data|) := Some(x)], nextItem, puts + [x])
  {
    RemDist(nextItem, |puts| - nextItem, |data|);
  }

  lemma RemoveKeepsData(data: seq<Option<Elem>>, nextItem: nat, puts: seq<Elem>)
    requires |data| > 0 && DataOk(data, nextItem, puts) && nextItem < |puts| <= nextItem + |data|
    ensures DataOk(data[Rem(nextItem, |data|) := None], nextItem + 1, puts)
  {
    RemStep(nextItem, |data|);
  }

  lemma StoreKeeps(b: Buffer, gaveUp: bool)
    requires Inv(b) && Safe(b) && b.p.PWrite?
    ensures StoreOk(ProducerStep(b, gaveUp))
  {
    SlotsReady(b);
    MaskIndex(b, b.nextSlot);
    StoreKeepsData(b.data, b.nextItem, b.puts, b.p.x);
  }

  lemma EnqueueWaits(b: Buffer, gaveUp: bool)
    requires BooksOk(b) && Safe(b) && b.p.PWaiting?
    ensures BooksOk(ProducerStep(b, gaveUp))
  {
    var slots := Sema.WaiterStep(b.slots, gaveUp);
    Sema.WaiterKeeps(b.slots, gaveUp);
    Sema.WaiterFrame(b.slots, gaveUp);
    WaitBooks(b, slots);
  }

  lemma WaitBooks(b: Buffer, slots: Sema.Sem)
    requires BooksOk(b) && b.p.PWaiting? && Sema.Inv(slots)
    requires slots.s == b.slots.s && slots.initial == b.slots.initial && slots.signalled == b.slots.signalled
    requires slots.taken == b.slots.taken || (slots.taken == b.slots.taken + 1 && slots.w.WIdle?)
    ensures BooksOk(b.(slots := slots,
                       p := if !slots.w.WIdle? then b.p
                            else if slots.taken > b.slots.taken then PWrite(b.p.x) else PIdle))
  {
  }

  lemma EnqueueSignals(b: Buffer, gaveUp: bool)
    requires BooksOk(b) && Safe(b) && b.p.PSignalling?
    ensures BooksOk(ProducerStep(b, gaveUp))
  {
    Sema.SignallerKeeps(b.items);
    Sema.SignallerFrame(b.items);
  }

  lemma ProducerBooks(b: Buffer, gaveUp: bool)
    requires BooksOk(b) && Safe(b)
    ensures BooksOk(ProducerStep(b, gaveUp))
  {
    match b.p
    case PIdle =>
    case PWaiting(x) => EnqueueWaits(b, gaveUp);
    case PWrite(x) =>
    case PSignalling => EnqueueSignals(b, gaveUp);
  }

  lemma ProducerKeeps(b: Buffer, gaveUp: bool)
    requires Inv(b) && Safe(b)
    ensures Inv(ProducerStep(b, gaveUp))
  {
    ProducerBooks(b, gaveUp);
    if b.p.PWrite? {
      StoreKeeps(b, gaveUp);
    }
  }

  lemma RemoveKeeps(b: Buffer, gaveUp: bool)
    requires Inv(b) && Safe(b) && b.c.CRead?
    ensures StoreOk(ConsumerStep(b, gaveUp))
    ensures BooksOk(ConsumerStep(b, gaveUp))
  {
    SlotsReady(b);
    MaskIndex(b, b.nextItem);
    RemoveKeepsData(b.data, b.nextItem, b.puts);
  }

  lemma DequeueWaits(b: Buffer, gaveUp: bool)
    requires BooksOk(b) && Safe(b) && b.c.CWaiting?
    ensures BooksOk(ConsumerStep(b, gaveUp))
  {
    Sema.WaiterKeeps(b.items, gaveUp);
    Sema.WaiterFrame(b.items, gaveUp);
    ItemBooks(b, Sema.WaiterStep(b.items, gaveUp));
  }

  lemma ItemBooks(b: Buffer, items: Sema.Sem)
    requires BooksOk(b) && b.c.CWaiting? && Sema.Inv(items)
    requires items.s == b.items.s && items.initial == b.items.initial && items.signalled == b.items.signalled
    requires items.taken == b.items.taken || (items.taken == b.items.taken + 1 && items.w.WIdle?)
    ensures BooksOk(b.(items := items,
                       c := if !items.w.WIdle? then CWaiting
                            else if items.taken > b.items.taken then CRead else CIdle))
  {
  }

  lemma DequeueSignals(b: Buffer, gaveUp: bool)
    requires BooksOk(b) && Safe(b) && b.c.CSignalling?
    ensures BooksOk(ConsumerStep(b, gaveUp))
  {
    Sema.SignallerKeeps(b.slots);
    Sema.SignallerFrame(b.slots);
  }

  lemma ConsumerBooks(b: Buffer, gaveUp: bool)
    requires BooksOk(b) && Safe(b) && !b.c.CRead?
    ensures BooksOk(ConsumerStep(b, gaveUp))
  {
    match b.c
    case CIdle =>
    case CWaiting => DequeueWaits(b, gaveUp);
    case CSignalling => DequeueSignals(b, gaveUp);
  }

  lemma ConsumerKeeps(b: Buffer, gaveUp: bool)
    requires Inv(b) && Safe(b)
    ensures Inv(ConsumerStep(b, gaveUp))
  {
    if b.c.CRead? {
      RemoveKeeps(b, gaveUp);
    } else {
      ConsumerBooks(b, gaveUp);
    }
  }

  lemma StepKeeps(b: Buffer, e: Event)
    requires Inv(b) && Safe(b)
    ensures Inv(Step(b, e))
  {
    match e
    case BeginEnqueue(_, _) =>
    case ProducerMoves(gaveUp) => ProducerKeeps(b, gaveUp);
    case BeginDequeue(_) =>
    case ConsumerMoves(gaveUp) => ConsumerKeeps(b, gaveUp);
  }

  ghost predicate IsNew(b: Buffer) {
    && b.slots == Sema.Fresh(b.maxcap) && b.items == Sema.Fresh(0)
    && b.nextSlot == 0 && b.nextItem == 0 && b.p == PIdle && b.c == CIdle && b.puts == [] && b.gets == []
    && forall j :: 0 <= j < |b.data| ==> b.data[j] == None
  }

  lemma NewBooksOk(b: Buffer)
    requires IsNew(b)
    ensures BooksOk(b)
  {
    Sema.FreshInv(b.maxcap);
    Sema.FreshInv(0);
  }

  lemma NewStoreOk(b: Buffer)
    requires IsNew(b) && (b.maxcap >= 1 ==> |b.data| > 0)
    ensures StoreOk(b)
  {
  }

  lemma NewInv(b: Buffer)
    requires SizeOk(b) && IsNew(b)
    ensures Inv(b)
  {
    NewBooksOk(b);
    NewStoreOk(b);
  }

  lemma NewSizeOk(capacity: nat)
    requires capacity < WORD / 2
    ensures SizeOk(Make(capacity))
  {
    if capacity >= 1 {
      CeilToPow2Correct(capacity);
      MaskPlusOne(capacity);
    }
  }

  lemma NewIsNew(capacity: nat)
    requires capacity < WORD
    ensures IsNew(Make(capacity))
  {
  }

  /** The constructor, for every capacity that the cast to a signed size leaves non-negative. */
  lemma MakeInv(capacity: nat)
    requires capacity < WORD / 2
    ensures Inv(Make(capacity))
  {
    NewSizeOk(capacity);
    NewIsNew(capacity);
    NewInv(Make(capacity));
  }

  // ---------------------------------------------------------------------------------------------
  // Runs
  // ---------------------------------------------------------------------------------------------

  ghost predicate Follows(b: Buffer, e: Event, b': Buffer) {
    Safe(b) && b' == Step(b, e)
  }

  /** Any interleaving of the two threads, starting from a new buffer. */
  ghost predicate IsRun(capacity: nat, bs: seq<Buffer>, es: seq<Event>) {
    && capacity < WORD / 2 && |bs| == |es| + 1 && bs[0] == Make(capacity)
    && forall i {:trigger es[i]} :: 0 <= i < |es| ==> Follows(bs[i], es[i], bs[i + 1])
  }

  lemma {:induction false} RunInv(capacity: nat, bs: seq<Buffer>, es: seq<Event>, i: nat)
    requires IsRun(capacity, bs, es) && i <= |es|
    ensures Inv(bs[i]) && bs[i].maxcap == capacity
  {
    if i == 0 {
      MakeInv(capacity);
    } else {
      RunInv(capacity, bs, es, i - 1);
      assert Follows(bs[i - 1], es[i - 1], bs[i - 1 + 1]);
      StepKeeps(bs[i - 1], es[i - 1]);
    }
  }

  /**
   First in, first out, and never more than `capacity` elements: what has come out is a prefix of what went in.
   Every step can be taken, so no slot outside the array and no empty slot is ever read.
  */
  lemma BoundedFifo(capacity: nat, bs: seq<Buffer>, es: seq<Event>, i: nat)
    requires IsRun(capacity, bs, es) && i <= |es|
    ensures Safe(bs[i])
    ensures bs[i].gets <= bs[i].puts && |bs[i].puts| - |bs[i].gets| <= capacity
  {
    RunInv(capacity, bs, es, i);
    SlotsReady(bs[i]);
  }

  /** A store goes into a slot that holds no object: a live element is never overwritten. */
  lemma NeverOverwrites(capacity: nat, bs: seq<Buffer>, es: seq<Event>, i: nat)
    requires IsRun(capacity, bs, es) && i <= |es| && bs[i].p.PWrite?
    ensures And(bs[i].nextSlot, bs[i].mask) < |bs[i].data|
    ensures bs[i].data[And(bs[i].nextSlot, bs[i].mask)] == None
  {
    RunInv(capacity, bs, es, i);
    SlotsReady(bs[i]);
  }

  /** What is read is the oldest stored element. */
  lemma ReadsOldest(capacity: nat, bs: seq<Buffer>, es: seq<Event>, i: nat)
    requires IsRun(capacity, bs, es) && i <= |es| && bs[i].c.CRead?
    ensures |bs[i].gets| < |bs[i].puts| && And(bs[i].nextItem, bs[i].mask) < |bs[i].data|
    ensures bs[i].data[And(bs[i].nextItem, bs[i].mask)] == Some(bs[i].puts[|bs[i].gets|])
  {
    RunInv(capacity, bs, es, i);
    SlotsReady(bs[i]);
  }

  /**
   A refused or timed-out enqueue decides when the buffer is full, counting the slot a consumer has emptied
   but not yet announced; a failed dequeue when it is empty, not counting an unannounced element.
  */
  lemma FailuresAreHonest(capacity: nat, bs: seq<Buffer>, es: seq<Event>, i: nat, gaveUp: bool)
    requires IsRun(capacity, bs, es) && i <= |es|
    ensures Sema.GivesUp(bs[i].slots, gaveUp) ==>
              |bs[i].puts| - |bs[i].gets| + (if bs[i].slots.s.SAdd? then 1 else 0) == capacity
    ensures Sema.GivesUp(bs[i].items, gaveUp) ==>
              |bs[i].puts| - |bs[i].gets| - (if bs[i].items.s.SAdd? then 1 else 0) == 0
  {
    RunInv(capacity, bs, es, i);
  }
}
