/** The remaining steps of the two threads, and the invariant over all of them. */
module SpscSteps {
  import opened Options
  import opened SpscQueue
  import opened SpscInvariant
  import opened SpscBlocks
  import opened SpscFrames
  import opened SpscMoves

  lemma InvImpliesSafe(c: Conc, h: Hist, n: nat, m: nat)
    requires Inv(c, h, n, m)
    ensures Safe(c)
  {
    if c.c.CRead? {
      assert BlockOk(c.blocks[c.c.fb], h.pos[c.c.fb], Stored(c, h), Hole(c.c, c.c.fb), Extra(c.p, c.c.fb), m);
    }
  }

  lemma BeginEnqueue(c: Conc, h: Hist, n: nat, m: nat, e: Event)
    requires Inv(c, h, n, m) && Safe(c) && e.ProducerMoves? && c.p.PIdle?
    ensures Inv(Step(c, e), HistStep(c, h, e), n, m)
  {
  }

  lemma LoadTailBlock(c: Conc, h: Hist, n: nat, m: nat, e: Event)
    requires Inv(c, h, n, m) && Safe(c) && e.ProducerMoves? && c.p.PLoadTailBlock?
    ensures Inv(Step(c, e), HistStep(c, h, e), n, m)
  {
  }

  lemma LoadTail(c: Conc, h: Hist, n: nat, m: nat, e: Event)
    requires Inv(c, h, n, m) && Safe(c) && e.ProducerMoves? && c.p.PLoadTail?
    ensures Inv(Step(c, e), HistStep(c, h, e), n, m)
  {
    var c', h', id := Step(c, e), HistStep(c, h, e), h.chain[0];
    NoBlock(c, h, n, m, c', h');
    assert c'.blocks == c.blocks[id := c.blocks[id]];
    ConsumerFrame(c, h, id, c', h');
  }

  lemma ReloadFront(c: Conc, h: Hist, n: nat, m: nat, e: Event)
    requires Inv(c, h, n, m) && Safe(c) && e.ProducerMoves? && c.p.PReloadFront?
    ensures Inv(Step(c, e), HistStep(c, h, e), n, m)
  {
    var c', h', id := Step(c, e), HistStep(c, h, e), c.p.tb;
    assert BlockOk(c.blocks[id], h.pos[id], Stored(c, h), Hole(c.c, id), Extra(c.p, id), m);
    RefreshLocalFront(c.blocks[id], h.pos[id], Stored(c, h), Hole(c.c, id), Extra(c.p, id), m);
    OneBlock(c, h, n, m, id, c', h');
    ConsumerFrame(c, h, id, c', h');
  }

  lemma Write(c: Conc, h: Hist, n: nat, m: nat, e: Event)
    requires Inv(c, h, n, m) && Safe(c) && e.ProducerMoves? && c.p.PWrite?
    ensures Inv(Step(c, e), HistStep(c, h, e), n, m)
  {
    var c', h', id := Step(c, e), HistStep(c, h, e), c.p.tb;
    assert BlockOk(c.blocks[id], h.pos[id], Stored(c, h), Hole(c.c, id), Extra(c.p, id), m);
    WriteSlot(c.blocks[id], h.pos[id], Stored(c, h), Hole(c.c, id), c.p.x, m);
    OneBlock(c, h, n, m, id, c', h');
    ConsumerFrame(c, h, id, c', h');
  }

  lemma LoadNextOfTail(c: Conc, h: Hist, n: nat, m: nat, e: Event)
    requires Inv(c, h, n, m) && Safe(c) && e.ProducerMoves? && c.p.PLoadNext?
    ensures Inv(Step(c, e), HistStep(c, h, e), n, m)
  {
  }

  lemma CompareFrontBlock(c: Conc, h: Hist, n: nat, m: nat, e: Event)
    requires Inv(c, h, n, m) && Safe(c) && e.ProducerMoves? && c.p.PLoadFrontBlock?
    ensures Inv(Step(c, e), HistStep(c, h, e), n, m)
  {
    var c', h', id := Step(c, e), HistStep(c, h, e), h.chain[0];
    NoBlock(c, h, n, m, c', h');
    assert c'.blocks == c.blocks[id := c.blocks[id]];
    ConsumerFrame(c, h, id, c', h');
  }

  lemma LoadNextAgain(c: Conc, h: Hist, n: nat, m: nat, e: Event)
    requires Inv(c, h, n, m) && Safe(c) && e.ProducerMoves? && c.p.PLoadNextAgain?
    ensures Inv(Step(c, e), HistStep(c, h, e), n, m)
  {
  }

  lemma RefreshFrontOfNext(c: Conc, h: Hist, n: nat, m: nat, e: Event)
    requires Inv(c, h, n, m) && Safe(c) && e.ProducerMoves? && c.p.PLoadNextFront?
    ensures Inv(Step(c, e), HistStep(c, h, e), n, m)
  {
    var c', h', id := Step(c, e), HistStep(c, h, e), c.p.nb;
    assert BlockOk(c.blocks[id], h.pos[id], Stored(c, h), Hole(c.c, id), Extra(c.p, id), m);
    RefreshLocalFront(c.blocks[id], h.pos[id], Stored(c, h), Hole(c.c, id), Extra(c.p, id), m);
    OneBlock(c, h, n, m, id, c', h');
    ConsumerFrame(c, h, id, c', h');
  }

  lemma LoadTailOfNext(c: Conc, h: Hist, n: nat, m: nat, e: Event)
    requires Inv(c, h, n, m) && Safe(c) && e.ProducerMoves? && c.p.PLoadNextTail?
    ensures Inv(Step(c, e), HistStep(c, h, e), n, m)
  {
    var c', h', id := Step(c, e), HistStep(c, h, e), c.p.nb;
    assert BlockOk(c.blocks[id], h.pos[id], Stored(c, h), Hole(c.c, id), Extra(c.p, id), m);
    OneBlock(c, h, n, m, id, c', h');
    ConsumerFrame(c, h, id, c', h');
  }

  lemma WriteNext(c: Conc, h: Hist, n: nat, m: nat, e: Event)
    requires Inv(c, h, n, m) && Safe(c) && e.ProducerMoves? && c.p.PWriteNext?
    ensures Inv(Step(c, e), HistStep(c, h, e), n, m)
  {
    var c', h', id := Step(c, e), HistStep(c, h, e), c.p.nb;
    assert BlockOk(c.blocks[id], h.pos[id], Stored(c, h), Hole(c.c, id), Extra(c.p, id), m);
    WriteSlot(c.blocks[id], h.pos[id], Stored(c, h), Hole(c.c, id), c.p.x, m);
    OneBlock(c, h, n, m, id, c', h');
    ConsumerFrame(c, h, id, c', h');
  }

  lemma BeginDequeue(c: Conc, h: Hist, n: nat, m: nat, e: Event)
    requires Inv(c, h, n, m) && Safe(c) && e.ConsumerMoves? && c.c.CIdle?
    ensures Inv(Step(c, e), HistStep(c, h, e), n, m)
  {
  }

  lemma LoadFrontBlock(c: Conc, h: Hist, n: nat, m: nat, e: Event)
    requires Inv(c, h, n, m) && Safe(c) && e.ConsumerMoves? && c.c.CLoadFrontBlock?
    ensures Inv(Step(c, e), HistStep(c, h, e), n, m)
  {
  }

  lemma LoadFront(c: Conc, h: Hist, n: nat, m: nat, e: Event)
    requires Inv(c, h, n, m) && Safe(c) && e.ConsumerMoves? && c.c.CLoadFront?
    ensures Inv(Step(c, e), HistStep(c, h, e), n, m)
  {
    var c', h', id := Step(c, e), HistStep(c, h, e), h.chain[0];
    NoBlock(c, h, n, m, c', h');
    assert c'.blocks == c.blocks[id := c.blocks[id]];
    ProducerFrame(c, h, m, id, c', h');
  }

  lemma ReloadTail(c: Conc, h: Hist, n: nat, m: nat, e: Event)
    requires Inv(c, h, n, m) && Safe(c) && e.ConsumerMoves? && c.c.CReloadTail?
    ensures Inv(Step(c, e), HistStep(c, h, e), n, m)
  {
    var c', h', id := Step(c, e), HistStep(c, h, e), c.c.fb;
    assert BlockOk(c.blocks[id], h.pos[id], Stored(c, h), Hole(c.c, id), Extra(c.p, id), m);
    RefreshLocalTail(c.blocks[id], h.pos[id], Stored(c, h), Hole(c.c, id), Extra(c.p, id), m);
    OneBlock(c, h, n, m, id, c', h');
    ProducerFrame(c, h, m, id, c', h');
  }

  lemma CompareTailBlock(c: Conc, h: Hist, n: nat, m: nat, e: Event)
    requires Inv(c, h, n, m) && Safe(c) && e.ConsumerMoves? && c.c.CLoadTailBlock?
    ensures Inv(Step(c, e), HistStep(c, h, e), n, m)
  {
    var c', h', id := Step(c, e), HistStep(c, h, e), h.chain[0];
    NoBlock(c, h, n, m, c', h');
    assert c'.blocks == c.blocks[id := c.blocks[id]];
    ProducerFrame(c, h, m, id, c', h');
  }

  lemma ReloadFrontBlock(c: Conc, h: Hist, n: nat, m: nat, e: Event)
    requires Inv(c, h, n, m) && Safe(c) && e.ConsumerMoves? && c.c.CReloadFrontBlock?
    ensures Inv(Step(c, e), HistStep(c, h, e), n, m)
  {
  }

  lemma ReloadTailAgain(c: Conc, h: Hist, n: nat, m: nat, e: Event)
    requires Inv(c, h, n, m) && Safe(c) && e.ConsumerMoves? && c.c.CReloadTailAgain?
    ensures Inv(Step(c, e), HistStep(c, h, e), n, m)
  {
    var c', h', id := Step(c, e), HistStep(c, h, e), c.c.fb;
    assert BlockOk(c.blocks[id], h.pos[id], Stored(c, h), Hole(c.c, id), Extra(c.p, id), m);
    RefreshLocalTail(c.blocks[id], h.pos[id], Stored(c, h), Hole(c.c, id), Extra(c.p, id), m);
    OneBlock(c, h, n, m, id, c', h');
    ProducerFrame(c, h, m, id, c', h');
  }

  lemma ReloadFrontAgain(c: Conc, h: Hist, n: nat, m: nat, e: Event)
    requires Inv(c, h, n, m) && Safe(c) && e.ConsumerMoves? && c.c.CReloadFront?
    ensures Inv(Step(c, e), HistStep(c, h, e), n, m)
  {
    var c', h', id := Step(c, e), HistStep(c, h, e), h.chain[0];
    NoBlock(c, h, n, m, c', h');
    assert c'.blocks == c.blocks[id := c.blocks[id]];
    ProducerFrame(c, h, m, id, c', h');
  }

  lemma LoadNextOfFront(c: Conc, h: Hist, n: nat, m: nat, e: Event)
    requires Inv(c, h, n, m) && Safe(c) && e.ConsumerMoves? && c.c.CLoadNext?
    ensures Inv(Step(c, e), HistStep(c, h, e), n, m)
  {
  }

  lemma LoadFrontOfNext(c: Conc, h: Hist, n: nat, m: nat, e: Event)
    requires Inv(c, h, n, m) && Safe(c) && e.ConsumerMoves? && c.c.CLoadNextFront?
    ensures Inv(Step(c, e), HistStep(c, h, e), n, m)
  {
  }

  lemma AllocFails(c: Conc, h: Hist, n: nat, m: nat, e: Event)
    requires Inv(c, h, n, m) && Safe(c) && e.ProducerMoves? && c.p.PAlloc? && !e.allocOk
    ensures Inv(Step(c, e), HistStep(c, h, e), n, m)
  {
  }

  lemma ProducerKeeps(c: Conc, h: Hist, n: nat, m: nat, e: Event)
    requires Inv(c, h, n, m) && Safe(c) && e.ProducerMoves?
    ensures Inv(Step(c, e), HistStep(c, h, e), n, m)
  {
    match c.p
    case PIdle => BeginEnqueue(c, h, n, m, e);
    case PLoadTailBlock(_, _) => LoadTailBlock(c, h, n, m, e);
    case PLoadTail(_, _, _) => LoadTail(c, h, n, m, e);
    case PReloadFront(_, _, _, _, _) => ReloadFront(c, h, n, m, e);
    case PWrite(_, _, _, _) => Write(c, h, n, m, e);
    case PStoreTail(_, _, _, _) => StoreTail(c, h, n, m, e);
    case PLoadNext(_, _, _) => LoadNextOfTail(c, h, n, m, e);
    case PLoadFrontBlock(_, _, _, _) => CompareFrontBlock(c, h, n, m, e);
    case PLoadNextAgain(_, _) => LoadNextAgain(c, h, n, m, e);
    case PLoadNextFront(_, _) => RefreshFrontOfNext(c, h, n, m, e);
    case PLoadNextTail(_, _, _) => LoadTailOfNext(c, h, n, m, e);
    case PWriteNext(_, _, _) => WriteNext(c, h, n, m, e);
    case PStoreNextTail(_, _, _) => StoreNextTail(c, h, n, m, e);
    case PAlloc(_, _) => if e.allocOk { Alloc(c, h, n, m, e); } else { AllocFails(c, h, n, m, e); }
    case PLink(_, _, _) => Link(c, h, n, m, e);
    case PStoreTailBlock(_, _) => StoreTailBlock(c, h, n, m, e);
  }

  lemma ConsumerKeeps(c: Conc, h: Hist, n: nat, m: nat, e: Event)
    requires Inv(c, h, n, m) && Safe(c) && e.ConsumerMoves?
    ensures Inv(Step(c, e), HistStep(c, h, e), n, m)
  {
    match c.c
    case CIdle => BeginDequeue(c, h, n, m, e);
    case CLoadFrontBlock(_) => LoadFrontBlock(c, h, n, m, e);
    case CLoadFront(_, _) => LoadFront(c, h, n, m, e);
    case CReloadTail(_, _, _) => ReloadTail(c, h, n, m, e);
    case CLoadTailBlock(_, _) => CompareTailBlock(c, h, n, m, e);
    case CReloadFrontBlock(_) => ReloadFrontBlock(c, h, n, m, e);
    case CReloadTailAgain(_, _) => ReloadTailAgain(c, h, n, m, e);
    case CReloadFront(_, _, _) => ReloadFrontAgain(c, h, n, m, e);
    case CLoadNext(_, _) => LoadNextOfFront(c, h, n, m, e);
    case CLoadNextFront(_, _) => LoadFrontOfNext(c, h, n, m, e);
    case CLoadNextTail(op, _, _) =>
      if op.Peek? { PeekNextBlock(c, h, n, m, e); } else { LoadNextTail(c, h, n, m, e); }
    case CStoreFrontBlock(_, _, _) => StoreFrontBlock(c, h, n, m, e);
    case CRead(op, _, _) => if op.Peek? { PeekDone(c, h, n, m, e); } else { Read(c, h, n, m, e); }
    case CStoreFront(_, _, _, _) => StoreFront(c, h, n, m, e);
  }

  /** Every step of either thread keeps the invariant. */
  lemma InvStep(c: Conc, h: Hist, n: nat, m: nat, e: Event)
    requires Inv(c, h, n, m)
    ensures Safe(c) && Inv(Step(c, e), HistStep(c, h, e), n, m)
  {
    InvImpliesSafe(c, h, n, m);
    match e
    case ProducerMoves(_, _, _) => ProducerKeeps(c, h, n, m, e);
    case ConsumerMoves(_) => ConsumerKeeps(c, h, n, m, e);
  }
}
