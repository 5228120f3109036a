/**
 The blocking queue: a lock-free queue and a semaphore that counts its elements. Each step of the queue and each step
 of the semaphore is a step here, and the program points say which call a thread is in.
*/
module BlockingQueue {
  import opened Options
  import opened SpscQueue
  import opened SpscInvariant
  import opened SpscRuns
  import opened SpscTheorems
  import PowersOfTwo
  import SpscSteps
  import Sema = Semaphore

  /** The producer enqueues, and after success signals. */
  datatype Sender = Ready | Enqueuing | Signalling

  /** The consumer waits for a permit and then removes; `peek` needs no permit. */
  datatype Receiver = Idle | Waiting(op: Op) | Removing(op: Op) | Peeking

  /** `h` is the queue's history, which no step reads. */
  datatype World = World(q: Conc, h: Hist, m: Sema.Sem, p: Sender, c: Receiver)

  datatype Move =
    | BeginEnqueue(x: Elem, alloc: bool)
    | Enqueue(allocOk: bool)
    | Signal
    | BeginWait(patience: Sema.Patience, op: Op)
    | Wait(gaveUp: bool)
    | Remove
    | BeginPeek
    | Peek

  function QueueStep(w: World, e: Event): World
    requires Safe(w.q)
  {
    w.(q := Step(w.q, e), h := HistStep(w.q, w.h, e))
  }

  function SenderStep(w: World, e: Move): World
    requires Safe(w.q)
  {
    match e
    case BeginEnqueue(x, alloc) =>
      if w.p.Ready? then QueueStep(w, ProducerMoves(x, alloc, true)).(p := Enqueuing) else w
    case Enqueue(allocOk) =>
      if !w.p.Enqueuing? || w.q.p.PIdle? then w
      else
        var move := ProducerMoves(w.q.p.x, true, allocOk);
        var w' := QueueStep(w, move);
        if Accepts(w.q, move) then w'.(p := Signalling, m := Sema.BeginSignal(w.m, 1))
        else if w'.q.p.PIdle? then w'.(p := Ready)
        else w'
    case Signal =>
      if !w.p.Signalling? then w
      else
        var m' := Sema.SignallerStep(w.m);
        w.(m := m', p := if m'.s.SIdle? then Ready else Signalling)
    case _ => w
  }

  /** A failed wait of `wait_dequeue` is followed by the next wait. */
  function ReceiverStep(w: World, e: Move): World
    requires Safe(w.q)
  {
    match e
    case BeginWait(patience, op) =>
      if w.c.Idle? && !op.Peek? && (op.Pop? ==> patience.Try?)
      then w.(m := Sema.BeginWait(w.m, patience), c := Waiting(op))
      else w
    case Wait(gaveUp) =>
      if !w.c.Waiting? then w
      else
        var m' := Sema.WaiterStep(w.m, gaveUp);
        w.(m := m', c := if !m'.w.WIdle? then w.c else if m'.taken > w.m.taken then Removing(w.c.op) else Idle)
    case Remove =>
      if !w.c.Removing? then w
      else
        var w' := QueueStep(w, ConsumerMoves(w.c.op));
        if w'.q.c.CIdle? then w'.(c := Idle) else w'
    case BeginPeek =>
      if w.c.Idle? then QueueStep(w, ConsumerMoves(Op.Peek)).(c := Peeking) else w
    case Peek =>
      if !w.c.Peeking? then w
      else
        var w' := QueueStep(w, ConsumerMoves(Op.Peek));
        if w'.q.c.CIdle? then w'.(c := Idle) else w'
    case _ => w
  }

  predicate OfSender(e: Move) {
    e.BeginEnqueue? || e.Enqueue? || e.Signal?
  }

  function Next(w: World, e: Move): World
    requires Safe(w.q)
  {
    if OfSender(e) then SenderStep(w, e) else ReceiverStep(w, e)
  }

  function Start(n: nat, maxBlock: nat): World
    requires maxBlock >= 2 && n + 1 < PowersOfTwo.WORD
  {
    World(Initial(n, maxBlock), InitialHist(Initial(n, maxBlock)), Sema.Fresh(0), Ready, Idle)
  }

  // ---------------------------------------------------------------------------------------------
  // The invariant
  // ---------------------------------------------------------------------------------------------

  /** Each element has its permit, or the producer is about to hand it in; a remover holds the permit of its element. */
  predicate BooksOk(w: World) {
    && w.m.initial == 0
    && (w.m.s.SAdd? ==> w.m.s.k == 1)
    && |w.h.puts| == w.m.signalled + (if w.m.s.SAdd? then 1 else 0)
    && |w.h.taken| + (if w.c.Removing? then 1 else 0) == w.m.taken
  }

  predicate SenderOk(w: World) {
    match w.p
    case Ready => w.q.p.PIdle? && w.m.s.SIdle?
    case Enqueuing => !w.q.p.PIdle? && w.m.s.SIdle?
    case Signalling => w.q.p.PIdle? && !w.m.s.SIdle?
  }

  predicate ReceiverOk(w: World) {
    match w.c
    case Idle => w.q.c.CIdle? && w.m.w.WIdle?
    case Waiting(op) => w.q.c.CIdle? && !w.m.w.WIdle? && !op.Peek?
    case Removing(op) => w.m.w.WIdle? && !op.Peek? && (!w.q.c.CIdle? ==> w.q.c.op == op && !w.h.sawEmpty)
    case Peeking => w.m.w.WIdle? && !w.q.c.CIdle? && w.q.c.op.Peek? && !w.q.c.CStoreFront?
  }

  ghost predicate WorldInv(w: World, n: nat, m: nat) {
    && Inv(w.q, w.h, n, m) && Sema.Inv(w.m)
    && BooksOk(w) && SenderOk(w) && ReceiverOk(w)
  }

  /** While a permit is held for removal, the queue is not empty. */
  lemma RemoverFindsElement(w: World)
    requires Sema.Inv(w.m) && BooksOk(w) && w.c.Removing?
    ensures Held(w.h) >= 1
  {
  }

  // ---------------------------------------------------------------------------------------------
  // Frames of the queue's steps
  // ---------------------------------------------------------------------------------------------

  lemma ProducerFrame(c: Conc, x: Elem, alloc: bool, allocOk: bool)
    requires Safe(c)
    ensures var c' := ProducerStep(c, x, alloc, allocOk);
            && c'.c == c.c
            && (c.p.PIdle? ==> !c'.p.PIdle?)
            && (Accepts(c, ProducerMoves(x, alloc, allocOk)) ==> c'.p.PIdle?)
  {
  }

  lemma ConsumerFrame(c: Conc, op: Op)
    requires Safe(c)
    ensures var c', e := ConsumerStep(c, op), ConsumerMoves(op);
            && c'.p == c.p
            && (c.c.CIdle? ==> !c'.c.CIdle? && c'.c.op == op)
            && (!c.c.CIdle? && !c'.c.CIdle? ==> c'.c.op == c.c.op)
            && (!c.c.CIdle? && c'.c.CIdle? ==> Takes(c, e) || ReportsEmpty(c, e) || Peeks(c, e))
            && (Takes(c, e) ==> c'.c.CIdle?)
            && (c.c.CIdle? || c.c.op.Peek? ==> !c'.c.CStoreFront?)
  {
  }

  lemma Observed(w: World, e: Event, n: nat, m: nat)
    requires Inv(w.q, w.h, n, m)
    ensures Safe(w.q)
    ensures var h' := HistStep(w.q, w.h, e);
            && h'.puts == (if Accepts(w.q, e) then w.h.puts + [w.q.p.x] else w.h.puts)
            && h'.taken == (if Takes(w.q, e) then w.h.taken + [w.q.c.v] else w.h.taken)
            && (h'.sawEmpty ==> Held(h') == 0 || (w.h.sawEmpty && !BeginsDequeue(w.q, e)))
  {
    SpscSteps.InvImpliesSafe(w.q, w.h, n, m);
    TakeInRange(w.q, w.h, n, m);
    StepObserved(w.q, w.h, e);
    if HistStep(w.q, w.h, e).sawEmpty {
      EmptyStep(w.q, w.h, e);
    }
  }

  /** A consumer that removes never finds the queue empty. */
  lemma NoEmptyReport(w: World, n: nat, m: nat)
    requires WorldInv(w, n, m) && w.c.Removing?
    ensures !ReportsEmpty(w.q, ConsumerMoves(w.c.op))
  {
    if ReportsEmpty(w.q, ConsumerMoves(w.c.op)) {
      EmptyDecision(w.q, w.h, n, m);
    }
  }

  // ---------------------------------------------------------------------------------------------
  // Each move keeps the invariant
  // ---------------------------------------------------------------------------------------------

  lemma SignalKeeps(w: World, n: nat, m: nat)
    requires WorldInv(w, n, m) && Safe(w.q)
    ensures WorldInv(SenderStep(w, Signal), n, m)
  {
    if w.p.Signalling? {
      Sema.SignallerKeeps(w.m);
      Sema.SignallerFrame(w.m);
    }
  }

  lemma SenderKeeps(w: World, e: Move, n: nat, m: nat)
    requires WorldInv(w, n, m) && OfSender(e)
    ensures Safe(w.q) && WorldInv(SenderStep(w, e), n, m)
  {
    SpscSteps.InvImpliesSafe(w.q, w.h, n, m);
    if e.Signal? {
      SignalKeeps(w, n, m);
    } else if (e.BeginEnqueue? && w.p.Ready?) || (e.Enqueue? && w.p.Enqueuing?) {
      var move := if e.BeginEnqueue? then ProducerMoves(e.x, e.alloc, true)
                  else ProducerMoves(w.q.p.x, true, e.allocOk);
      SpscSteps.InvStep(w.q, w.h, n, m, move);
      Observed(w, move, n, m);
      ProducerFrame(w.q, move.x, move.alloc, move.allocOk);
    }
  }

  lemma RemoveKeeps(w: World, n: nat, m: nat)
    requires WorldInv(w, n, m) && w.c.Removing?
    ensures Safe(w.q) && WorldInv(ReceiverStep(w, Remove), n, m)
  {
    SpscSteps.InvImpliesSafe(w.q, w.h, n, m);
    var move := ConsumerMoves(w.c.op);
    SpscSteps.InvStep(w.q, w.h, n, m, move);
    Observed(w, move, n, m);
    ConsumerFrame(w.q, w.c.op);
    NoEmptyReport(w, n, m);
    RemoverFindsElement(w);
  }

  lemma PeekKeeps(w: World, e: Move, n: nat, m: nat)
    requires WorldInv(w, n, m) && (e.BeginPeek? || e.Peek?)
    ensures Safe(w.q) && WorldInv(ReceiverStep(w, e), n, m)
  {
    SpscSteps.InvImpliesSafe(w.q, w.h, n, m);
    if (e.BeginPeek? && w.c.Idle?) || (e.Peek? && w.c.Peeking?) {
      var move := ConsumerMoves(Op.Peek);
      SpscSteps.InvStep(w.q, w.h, n, m, move);
      Observed(w, move, n, m);
      ConsumerFrame(w.q, Op.Peek);
    }
  }

  lemma WaitKeeps(w: World, e: Move, n: nat, m: nat)
    requires WorldInv(w, n, m) && (e.BeginWait? || e.Wait?)
    ensures Safe(w.q) && WorldInv(ReceiverStep(w, e), n, m)
  {
    SpscSteps.InvImpliesSafe(w.q, w.h, n, m);
    if e.Wait? && w.c.Waiting? {
      Sema.WaiterKeeps(w.m, e.gaveUp);
      Sema.WaiterFrame(w.m, e.gaveUp);
    }
  }

  lemma MoveKeeps(w: World, e: Move, n: nat, m: nat)
    requires WorldInv(w, n, m)
    ensures Safe(w.q) && WorldInv(Next(w, e), n, m)
  {
    if OfSender(e) {
      SenderKeeps(w, e, n, m);
    } else if e.Remove? {
      SpscSteps.InvImpliesSafe(w.q, w.h, n, m);
      if w.c.Removing? {
        RemoveKeeps(w, n, m);
      }
    } else if e.BeginPeek? || e.Peek? {
      PeekKeeps(w, e, n, m);
    } else {
      WaitKeeps(w, e, n, m);
    }
  }

  // ---------------------------------------------------------------------------------------------
  // Runs
  // ---------------------------------------------------------------------------------------------

  ghost predicate IsBlockingRun(n: nat, maxBlock: nat, ws: seq<World>, es: seq<Move>) {
    && ArgumentsOk(n, maxBlock) && |ws| == |es| + 1 && ws[0] == Start(n, maxBlock)
    && forall i :: 0 <= i < |es| ==> Leads(ws[i], es[i], ws[i + 1])
  }

  ghost predicate Leads(w: World, e: Move, w': World) {
    Safe(w.q) && w' == Next(w, e)
  }

  lemma {:induction false} BlockingRunInv(n: nat, maxBlock: nat, ws: seq<World>, es: seq<Move>, i: nat)
    requires IsBlockingRun(n, maxBlock, ws, es) && n >= 1 && i <= |es|
    ensures Room(n, maxBlock) >= 1 && WorldInv(ws[i], n, Room(n, maxBlock))
  {
    InitialInv(n, maxBlock);
    if i > 0 {
      BlockingRunInv(n, maxBlock, ws, es, i - 1);
      MoveKeeps(ws[i - 1], es[i - 1], n, Room(n, maxBlock));
      assert Leads(ws[i - 1], es[i - 1], ws[i - 1 + 1]);
    } else {
      Sema.FreshInv(0);
    }
  }

  /** The assertions on `success` hold in every run: with a permit in hand, the inner dequeue or pop never fails. */
  lemma InnerDequeueSucceeds(n: nat, maxBlock: nat, ws: seq<World>, es: seq<Move>, i: nat)
    requires IsBlockingRun(n, maxBlock, ws, es) && n >= 1 && i <= |es| && ws[i].c.Removing?
    ensures !ReportsEmpty(ws[i].q, ConsumerMoves(ws[i].c.op))
    ensures Held(ws[i].h) >= 1
  {
    BlockingRunInv(n, maxBlock, ws, es, i);
    NoEmptyReport(ws[i], n, Room(n, maxBlock));
    RemoverFindsElement(ws[i]);
  }

  /** Values come out in order, and between calls the semaphore's count is the number of elements. */
  lemma CountIsContent(n: nat, maxBlock: nat, ws: seq<World>, es: seq<Move>, i: nat)
    requires IsBlockingRun(n, maxBlock, ws, es) && n >= 1 && i <= |es|
    ensures ws[i].h.taken <= ws[i].h.puts
    ensures !ws[i].p.Signalling? && ws[i].c.Idle? ==> ws[i].m.count == |ws[i].h.puts| - |ws[i].h.taken|
  {
    BlockingRunInv(n, maxBlock, ws, es, i);
  }

  /** A consumer blocked on a queue that holds something is about to be woken. */
  lemma BlockedConsumerIsWoken(n: nat, maxBlock: nat, ws: seq<World>, es: seq<Move>, i: nat)
    requires IsBlockingRun(n, maxBlock, ws, es) && n >= 1 && i <= |es|
    requires ws[i].m.w.WKernel? && |ws[i].h.taken| < |ws[i].h.puts|
    ensures ws[i].m.kernel == 1 || ws[i].p.Signalling?
  {
    BlockingRunInv(n, maxBlock, ws, es, i);
  }
}
