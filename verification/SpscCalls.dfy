/** How single calls on the queue end, in every interleaving with the other thread. */
module SpscCalls {
  import opened Options
  import opened SpscQueue
  import opened SpscTheorems

  // ---------------------------------------------------------------------------------------------
  // Enqueues
  // ---------------------------------------------------------------------------------------------

  /** The most moves an enqueue can still make. */
  function EnqueueLeft(p: Producer): nat {
    match p
    case PIdle => 0
    case PStoreTailBlock(_, _) => 1
    case PLink(_, _, _) => 2
    case PAlloc(_, _) => 3
    case PStoreNextTail(_, _, _) => 2
    case PWriteNext(_, _, _) => 3
    case PLoadNextTail(_, _, _) => 4
    case PLoadNextFront(_, _) => 5
    case PLoadNextAgain(_, _) => 6
    case PLoadFrontBlock(_, _, _, _) => 7
    case PLoadNext(_, _, _) => 8
    case PStoreTail(_, _, _, _) => 1
    case PWrite(_, _, _, _) => 2
    case PReloadFront(_, _, _, _, _) => 9
    case PLoadTail(_, _, _) => 10
    case PLoadTailBlock(_, _) => 11
  }

  /** The call carries `x`, and may allocate or not. */
  predicate Carries(p: Producer, x: Elem, alloc: bool) {
    match p
    case PIdle => false
    case PLoadTailBlock(y, a) => y == x && a == alloc
    case PLoadTail(y, a, _) => y == x && a == alloc
    case PReloadFront(y, a, _, _, _) => y == x && a == alloc
    case PWrite(y, _, _, _) => y == x
    case PStoreTail(y, _, _, _) => y == x
    case PLoadNext(y, a, _) => y == x && a == alloc
    case PLoadFrontBlock(y, a, _, _) => y == x && a == alloc
    case PLoadNextAgain(y, _) => y == x
    case PLoadNextFront(y, _) => y == x
    case PLoadNextTail(y, _, _) => y == x
    case PWriteNext(y, _, _) => y == x
    case PStoreNextTail(y, _, _) => y == x
    case PAlloc(y, _) => y == x && alloc
    case PLink(y, _, _) => y == x && alloc
    case PStoreTailBlock(y, _) => y == x
  }

  /** The move accepts the element, finds no memory for it, or finds no room and may not allocate. */
  predicate EndsEnqueue(c: Conc, e: Event, alloc: bool) {
    Accepts(c, e) || (if alloc then OutOfMemory(c, e) else Refuses(c, e))
  }

  lemma EnqueueMove(c: Conc, e: Event, x: Elem, alloc: bool)
    requires Safe(c) && e.ProducerMoves? && Carries(c.p, x, alloc)
    ensures EnqueueLeft(Step(c, e).p) < EnqueueLeft(c.p)
    ensures Step(c, e).p.PIdle? <==> EndsEnqueue(c, e, alloc)
    ensures !Step(c, e).p.PIdle? ==> Carries(Step(c, e).p, x, alloc)
    ensures c.p.x == x
  {
  }

  lemma EnqueueBegins(c: Conc, e: Event)
    requires Safe(c) && BeginsEnqueue(c, e)
    ensures EnqueueLeft(Step(c, e).p) == 11 && Carries(Step(c, e).p, e.x, e.alloc)
  {
  }

  lemma OtherMove(c: Conc, e: Event)
    requires Safe(c)
    ensures e.ProducerMoves? ==> Step(c, e).c == c.c
    ensures e.ConsumerMoves? ==> Step(c, e).p == c.p
  {
  }

  /** How many of the moves from `i` to `j` are the producer's. */
  function ProducerMovesIn(es: seq<Event>, i: nat, j: nat): nat
    requires i <= j <= |es|
  {
    if i == j then 0 else ProducerMovesIn(es, i, j - 1) + if es[j - 1].ProducerMoves? then 1 else 0
  }

  /** An enqueue begins with move `i` and has not ended before `j`. */
  ghost predicate EnqueueOpen(cs: seq<Conc>, es: seq<Event>, i: nat, j: nat) {
    && i < j <= |es| < |cs| && BeginsEnqueue(cs[i], es[i])
    && forall k :: i < k < j ==> !cs[k].p.PIdle?
  }

  lemma OpenEnqueueMove(c: Conc, e: Event, x: Elem, alloc: bool)
    requires Safe(c) && Carries(c.p, x, alloc)
    ensures EnqueueLeft(Step(c, e).p) + (if e.ProducerMoves? then 1 else 0) <= EnqueueLeft(c.p)
    ensures !Step(c, e).p.PIdle? ==> Carries(Step(c, e).p, x, alloc)
  {
    if e.ProducerMoves? {
      EnqueueMove(c, e, x, alloc);
    } else {
      OtherMove(c, e);
    }
  }

  /** While it is open the call carries its element, and has made at most as many moves as it has not left. */
  lemma {:induction false} OpenEnqueue(n: nat, maxBlock: nat, cs: seq<Conc>, es: seq<Event>, i: nat, j: nat)
    requires IsRun(n, maxBlock, cs, es) && EnqueueOpen(cs, es, i, j)
    ensures ProducerMovesIn(es, i, j) + EnqueueLeft(cs[j].p) <= 12
    ensures !cs[j].p.PIdle? ==> Carries(cs[j].p, es[i].x, es[i].alloc)
  {
    var k := j - 1;
    assert Follows(cs[k], es[k], cs[k + 1]);
    if i == k {
      assert ProducerMovesIn(es, i, i) == 0;
      EnqueueBegins(cs[i], es[i]);
    } else {
      OpenEnqueue(n, maxBlock, cs, es, i, k);
      OpenEnqueueMove(cs[k], es[k], es[i].x, es[i].alloc);
    }
  }

  /**
   Every enqueue ends after at most 12 moves of its own, whatever the consumer does: by accepting just its element, or,
   if it may allocate, for want of memory, or, if it may not, by refusing.
  */
  lemma EnqueueEnds(n: nat, maxBlock: nat, cs: seq<Conc>, es: seq<Event>, i: nat, j: nat)
    requires IsRun(n, maxBlock, cs, es) && EnqueueOpen(cs, es, i, j)
    requires j < |es| && es[j].ProducerMoves? && !cs[j].p.PIdle?
    ensures ProducerMovesIn(es, i, j + 1) <= 12
    ensures cs[j + 1].p.PIdle? <==> EndsEnqueue(cs[j], es[j], es[i].alloc)
    ensures ProducerMovesIn(es, i, j + 1) == 12 ==> cs[j + 1].p.PIdle?
    ensures Accepts(cs[j], es[j]) ==> Accepted(cs, es, j + 1) == Accepted(cs, es, j) + [es[i].x]
  {
    OpenEnqueue(n, maxBlock, cs, es, i, j);
    assert Follows(cs[j], es[j], cs[j + 1]);
    EnqueueMove(cs[j], es[j], es[i].x, es[i].alloc);
    assert EnqueueLeft(cs[j + 1].p) == 0 <==> cs[j + 1].p.PIdle?;
  }

  /** With memory at hand an `enqueue` always accepts. */
  lemma EnqueueAccepts(n: nat, maxBlock: nat, cs: seq<Conc>, es: seq<Event>, i: nat, j: nat)
    requires IsRun(n, maxBlock, cs, es) && EnqueueOpen(cs, es, i, j) && es[i].alloc
    requires j < |es| && es[j].ProducerMoves? && es[j].allocOk && !cs[j].p.PIdle?
    ensures cs[j + 1].p.PIdle? <==> Accepts(cs[j], es[j])
    ensures ProducerMovesIn(es, i, j + 1) == 12 ==> Accepts(cs[j], es[j])
  {
    EnqueueEnds(n, maxBlock, cs, es, i, j);
  }

  // ---------------------------------------------------------------------------------------------
  // Dequeues
  // ---------------------------------------------------------------------------------------------

  function DequeueLeft(c: Consumer): nat {
    match c
    case CIdle => 0
    case CStoreFront(_, _, _, _) => 1
    case CRead(_, _, _) => 2
    case CStoreFrontBlock(_, _, _) => 3
    case CLoadNextTail(_, _, _) => 4
    case CLoadNextFront(_, _) => 5
    case CLoadNext(_, _) => 6
    case CReloadFront(_, _, _) => 7
    case CReloadTailAgain(_, _) => 8
    case CReloadFrontBlock(_) => 9
    case CLoadTailBlock(_, _) => 10
    case CReloadTail(_, _, _) => 11
    case CLoadFront(_, _) => 12
    case CLoadFrontBlock(_) => 13
  }

  predicate Serves(c: Consumer, op: Op) {
    !c.CIdle? && c.op == op && (c.CStoreFront? || c.CStoreFrontBlock? ==> !op.Peek?)
  }

  /** The move hands out an element, shows one to a `peek`, or reports an empty queue. */
  predicate EndsDequeue(c: Conc, e: Event, op: Op) {
    ReportsEmpty(c, e) || if op.Peek? then Peeks(c, e) else Takes(c, e)
  }

  lemma DequeueMove(c: Conc, e: Event, op: Op)
    requires Safe(c) && e.ConsumerMoves? && Serves(c.c, op)
    ensures DequeueLeft(Step(c, e).c) < DequeueLeft(c.c)
    ensures Step(c, e).c.CIdle? <==> EndsDequeue(c, e, op)
    ensures !Step(c, e).c.CIdle? ==> Serves(Step(c, e).c, op)
  {
  }

  lemma DequeueBegins(c: Conc, e: Event)
    requires Safe(c) && BeginsDequeue(c, e)
    ensures DequeueLeft(Step(c, e).c) == 13 && Serves(Step(c, e).c, e.op)
  {
  }

  lemma OpenDequeueMove(c: Conc, e: Event, op: Op)
    requires Safe(c) && Serves(c.c, op)
    ensures DequeueLeft(Step(c, e).c) + (if e.ConsumerMoves? then 1 else 0) <= DequeueLeft(c.c)
    ensures !Step(c, e).c.CIdle? ==> Serves(Step(c, e).c, op)
  {
    if e.ConsumerMoves? {
      DequeueMove(c, e, op);
    } else {
      OtherMove(c, e);
    }
  }

  function ConsumerMovesIn(es: seq<Event>, i: nat, j: nat): nat
    requires i <= j <= |es|
  {
    if i == j then 0 else ConsumerMovesIn(es, i, j - 1) + if es[j - 1].ConsumerMoves? then 1 else 0
  }

  ghost predicate DequeueOpen(cs: seq<Conc>, es: seq<Event>, i: nat, j: nat) {
    && i < j <= |es| < |cs| && BeginsDequeue(cs[i], es[i])
    && forall k :: i < k < j ==> !cs[k].c.CIdle?
  }

  lemma {:induction false} OpenDequeue(n: nat, maxBlock: nat, cs: seq<Conc>, es: seq<Event>, i: nat, j: nat)
    requires IsRun(n, maxBlock, cs, es) && DequeueOpen(cs, es, i, j)
    ensures ConsumerMovesIn(es, i, j) + DequeueLeft(cs[j].c) <= 14
    ensures !cs[j].c.CIdle? ==> Serves(cs[j].c, es[i].op)
  {
    var k := j - 1;
    assert Follows(cs[k], es[k], cs[k + 1]);
    if i == k {
      assert ConsumerMovesIn(es, i, i) == 0;
      DequeueBegins(cs[i], es[i]);
    } else {
      OpenDequeue(n, maxBlock, cs, es, i, k);
      OpenDequeueMove(cs[k], es[k], es[i].op);
    }
  }

  /** Every `try_dequeue`, `pop` and `peek` ends after at most 14 moves of its own, with its answer. */
  lemma DequeueEnds(n: nat, maxBlock: nat, cs: seq<Conc>, es: seq<Event>, i: nat, j: nat)
    requires IsRun(n, maxBlock, cs, es) && DequeueOpen(cs, es, i, j)
    requires j < |es| && es[j].ConsumerMoves? && !cs[j].c.CIdle?
    ensures ConsumerMovesIn(es, i, j + 1) <= 14
    ensures cs[j + 1].c.CIdle? <==> EndsDequeue(cs[j], es[j], es[i].op)
    ensures ConsumerMovesIn(es, i, j + 1) == 14 ==> cs[j + 1].c.CIdle?
  {
    OpenDequeue(n, maxBlock, cs, es, i, j);
    assert Follows(cs[j], es[j], cs[j + 1]);
    DequeueMove(cs[j], es[j], es[i].op);
    assert DequeueLeft(cs[j + 1].c) == 0 <==> cs[j + 1].c.CIdle?;
  }
}
