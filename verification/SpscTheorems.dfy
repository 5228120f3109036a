/** What the queue promises, over every interleaving of its two threads. */
module SpscTheorems {
  import opened Options
  import opened PowersOfTwo
  import opened SpscQueue
  import opened SpscInvariant
  import opened SpscMoves
  import opened SpscSteps
  import opened SpscRuns

  // ---------------------------------------------------------------------------------------------
  // Runs and what is observed along them
  // ---------------------------------------------------------------------------------------------

  /** A run of a queue constructed for `n` elements: `es` is any interleaving of the two threads. */
  ghost predicate IsRun(n: nat, maxBlock: nat, cs: seq<Conc>, es: seq<Event>) {
    && ArgumentsOk(n, maxBlock)
    && |cs| == |es| + 1 && cs[0] == Initial(n, maxBlock)
    && forall i {:trigger es[i]} :: 0 <= i < |es| ==> Follows(cs[i], es[i], cs[i + 1])
  }

  ghost predicate Follows(c: Conc, e: Event, c': Conc) {
    Safe(c) && c' == Step(c, e)
  }

  /** The elements whose enqueue took effect during the first `i` steps. */
  function Accepted(cs: seq<Conc>, es: seq<Event>, i: nat): seq<Elem>
    requires i <= |es| < |cs|
  {
    if i == 0 then []
    else if Accepts(cs[i - 1], es[i - 1]) then Accepted(cs, es, i - 1) + [cs[i - 1].p.x]
    else Accepted(cs, es, i - 1)
  }

  /** The elements handed out by `try_dequeue` or destroyed by `pop` during the first `i` steps. */
  function Taken(cs: seq<Conc>, es: seq<Event>, i: nat): seq<Elem>
    requires i <= |es| < |cs|
  {
    if i == 0 then []
    else if Takes(cs[i - 1], es[i - 1]) then Taken(cs, es, i - 1) + [cs[i - 1].c.v]
    else Taken(cs, es, i - 1)
  }

  function Content(cs: seq<Conc>, es: seq<Event>, i: nat): int
    requires i <= |es| < |cs|
  {
    |Accepted(cs, es, i)| - |Taken(cs, es, i)|
  }

  predicate BeginsEnqueue(c: Conc, e: Event) {
    e.ProducerMoves? && c.p.PIdle?
  }

  predicate BeginsDequeue(c: Conc, e: Event) {
    e.ConsumerMoves? && c.c.CIdle?
  }

  // ---------------------------------------------------------------------------------------------
  // The invariant along a run
  // ---------------------------------------------------------------------------------------------

  function HistAt(cs: seq<Conc>, es: seq<Event>, i: nat): Hist
    requires i <= |es| < |cs|
  {
    if i == 0 then InitialHist(cs[0]) else HistStep(cs[i - 1], HistAt(cs, es, i - 1), es[i - 1])
  }

  function Room(n: nat, maxBlock: nat): int
    requires maxBlock >= 2 && n + 1 < WORD
  {
    Initial(n, maxBlock).largest - 1
  }

  lemma InitialInv(n: nat, maxBlock: nat)
    requires ArgumentsOk(n, maxBlock) && n >= 1
    ensures Room(n, maxBlock) >= 1
    ensures Inv(Initial(n, maxBlock), InitialHist(Initial(n, maxBlock)), n, Room(n, maxBlock))
  {
    CeilToPow2Correct(n + 1);
    var size := LayoutOk(CeilToPow2(n + 1), n, maxBlock);
    EmptyInv(Initial(n, maxBlock), n, size);
  }

  lemma HistNext(cs: seq<Conc>, es: seq<Event>, i: nat, c: Conc, h: Hist, e: Event)
    requires 0 < i <= |es| < |cs| && c == cs[i - 1] && h == HistAt(cs, es, i - 1) && e == es[i - 1]
    ensures HistAt(cs, es, i) == HistStep(c, h, e)
  {
  }

  lemma InvNext(c: Conc, e: Event, c': Conc, h: Hist, n: nat, m: nat)
    requires Follows(c, e, c') && Inv(c, h, n, m)
    ensures Inv(c', HistStep(c, h, e), n, m) && Safe(c')
  {
    InvStep(c, h, n, m, e);
    InvImpliesSafe(c', HistStep(c, h, e), n, m);
  }

  lemma {:induction false} RunInv(n: nat, maxBlock: nat, cs: seq<Conc>, es: seq<Event>, i: nat)
    requires IsRun(n, maxBlock, cs, es) && n >= 1 && i <= |es|
    ensures Room(n, maxBlock) >= 1
    ensures Inv(cs[i], HistAt(cs, es, i), n, Room(n, maxBlock)) && Safe(cs[i])
  {
    var m := Room(n, maxBlock);
    InitialInv(n, maxBlock);
    if i == 0 {
      InvImpliesSafe(cs[0], HistAt(cs, es, 0), n, m);
    } else {
      var j := i - 1;
      var h := HistAt(cs, es, j);
      RunInv(n, maxBlock, cs, es, j);
      assert Follows(cs[j], es[j], cs[j + 1]);
      InvNext(cs[j], es[j], cs[i], h, n, m);
      HistNext(cs, es, i, cs[j], h, es[j]);
    }
  }

  lemma TakeInRange(c: Conc, h: Hist, n: nat, m: nat)
    requires Inv(c, h, n, m)
    ensures c.c.CStoreFront? ==> c.c.fb < |h.pos|
  {
  }

  /** What one step adds to the history is what a caller observes of it. */
  lemma StepObserved(c: Conc, h: Hist, e: Event)
    requires c.c.CStoreFront? ==> c.c.fb < |h.pos|
    ensures HistStep(c, h, e).puts == if Accepts(c, e) then h.puts + [c.p.x] else h.puts
    ensures HistStep(c, h, e).taken == if Takes(c, e) then h.taken + [c.c.v] else h.taken
  {
  }

  lemma EmptyStep(c: Conc, h: Hist, e: Event)
    requires HistStep(c, h, e).sawEmpty
    ensures Held(HistStep(c, h, e)) == 0 || (h.sawEmpty && !BeginsDequeue(c, e))
  {
  }

  lemma PeakStep(c: Conc, h: Hist, e: Event, q: nat)
    requires HistStep(c, h, e).peak >= q >= 1
    ensures Held(HistStep(c, h, e)) >= q || (h.peak >= q && !BeginsEnqueue(c, e))
  {
  }

  lemma HistTells(cs: seq<Conc>, es: seq<Event>, i: nat, c: Conc, h: Hist, e: Event)
    requires 0 < i <= |es| < |cs| && c == cs[i - 1] && h == HistAt(cs, es, i - 1) && e == es[i - 1]
    requires c.c.CStoreFront? ==> c.c.fb < |h.pos|
    ensures HistAt(cs, es, i).puts == if Accepts(c, e) then h.puts + [c.p.x] else h.puts
    ensures HistAt(cs, es, i).taken == if Takes(c, e) then h.taken + [c.c.v] else h.taken
  {
    HistNext(cs, es, i, c, h, e);
    StepObserved(c, h, e);
  }

  /** The block a consumer is about to leave has a position. */
  predicate InRange(cs: seq<Conc>, es: seq<Event>, i: nat)
    requires i <= |es| < |cs|
  {
    cs[i].c.CStoreFront? ==> cs[i].c.fb < |HistAt(cs, es, i).pos|
  }

  lemma RunInRange(n: nat, maxBlock: nat, cs: seq<Conc>, es: seq<Event>, i: nat)
    requires IsRun(n, maxBlock, cs, es) && n >= 1 && i <= |es|
    ensures InRange(cs, es, i)
  {
    RunInv(n, maxBlock, cs, es, i);
    TakeInRange(cs[i], HistAt(cs, es, i), n, Room(n, maxBlock));
  }

  lemma {:induction false} Observed(cs: seq<Conc>, es: seq<Event>, i: nat)
    requires i <= |es| < |cs| && forall k: nat :: k < i ==> InRange(cs, es, k)
    ensures HistAt(cs, es, i).puts == Accepted(cs, es, i) && HistAt(cs, es, i).taken == Taken(cs, es, i)
  {
    if i > 0 {
      Observed(cs, es, i - 1);
      assert InRange(cs, es, i - 1);
      HistTells(cs, es, i, cs[i - 1], HistAt(cs, es, i - 1), es[i - 1]);
    }
  }

  lemma HistObserved(n: nat, maxBlock: nat, cs: seq<Conc>, es: seq<Event>, i: nat)
    requires IsRun(n, maxBlock, cs, es) && n >= 1 && i <= |es|
    ensures HistAt(cs, es, i).puts == Accepted(cs, es, i) && HistAt(cs, es, i).taken == Taken(cs, es, i)
  {
    forall k: nat | k < i ensures InRange(cs, es, k) {
      RunInRange(n, maxBlock, cs, es, k);
    }
    Observed(cs, es, i);
  }

  // ---------------------------------------------------------------------------------------------
  // Safety
  // ---------------------------------------------------------------------------------------------

  /** Values come out in the order they went in: none is skipped, repeated, reordered or invented. */
  lemma Fifo(n: nat, maxBlock: nat, cs: seq<Conc>, es: seq<Event>, i: nat)
    requires IsRun(n, maxBlock, cs, es) && n >= 1 && i <= |es|
    ensures Taken(cs, es, i) <= Accepted(cs, es, i)
  {
    RunInv(n, maxBlock, cs, es, i);
    HistObserved(n, maxBlock, cs, es, i);
  }

  /** Any thread can move next: no step reads outside a block or from a slot without a live object. */
  lemma NeverStuck(n: nat, maxBlock: nat, cs: seq<Conc>, es: seq<Event>, e: Event)
    requires IsRun(n, maxBlock, cs, es) && n >= 1
    ensures Safe(cs[|es|]) && IsRun(n, maxBlock, cs + [Step(cs[|es|], e)], es + [e])
  {
    RunInv(n, maxBlock, cs, es, |es|);
    RunExtends(n, maxBlock, cs, es, e);
  }

  lemma RunExtends(n: nat, maxBlock: nat, cs: seq<Conc>, es: seq<Event>, e: Event)
    requires IsRun(n, maxBlock, cs, es) && Safe(cs[|es|])
    ensures IsRun(n, maxBlock, cs + [Step(cs[|es|], e)], es + [e])
  {
    var cs', es' := cs + [Step(cs[|es|], e)], es + [e];
    assert cs'[0] == cs[0];
    forall i {:trigger es'[i]} | 0 <= i < |es'|
      ensures Follows(cs'[i], es'[i], cs'[i + 1])
    {
      assert cs'[i] == cs[i];
      if i < |es| {
        assert es'[i] == es[i] && cs'[i + 1] == cs[i + 1];
      }
    }
  }

  /** An element is constructed only in a slot that holds none, so no live element is overwritten. */
  lemma NeverOverwrites(n: nat, maxBlock: nat, cs: seq<Conc>, es: seq<Event>, i: nat)
    requires IsRun(n, maxBlock, cs, es) && n >= 1 && i <= |es|
    ensures var p := cs[i].p;
            && (p.PWrite? ==> p.tb < |cs[i].blocks| && p.bt < |cs[i].blocks[p.tb].data|
                              && cs[i].blocks[p.tb].data[p.bt] == None)
            && (p.PWriteNext? ==> p.nb < |cs[i].blocks| && p.bt < |cs[i].blocks[p.nb].data|
                                  && cs[i].blocks[p.nb].data[p.bt] == None)
  {
    RunInv(n, maxBlock, cs, es, i);
    WriteTargetFree(cs[i], HistAt(cs, es, i), n, Room(n, maxBlock));
  }

  lemma WriteTargetFree(c: Conc, h: Hist, n: nat, m: nat)
    requires Inv(c, h, n, m) && Safe(c)
    ensures c.p.PWrite? ==> c.blocks[c.p.tb].data[c.p.bt] == None
    ensures c.p.PWriteNext? ==> c.blocks[c.p.nb].data[c.p.bt] == None
  {
    if c.p.PWrite? {
      assert BlockOk(c.blocks[c.p.tb], h.pos[c.p.tb], Stored(c, h), Hole(c.c, c.p.tb), Extra(c.p, c.p.tb), m);
    }
    if c.p.PWriteNext? {
      assert BlockOk(c.blocks[c.p.nb], h.pos[c.p.nb], Stored(c, h), Hole(c.c, c.p.nb), Extra(c.p, c.p.nb), m);
    }
  }

  /** `peek` returns the element that the next `try_dequeue` would hand out. */
  lemma PeekIsFront(n: nat, maxBlock: nat, cs: seq<Conc>, es: seq<Event>, i: nat)
    requires IsRun(n, maxBlock, cs, es) && n >= 1 && i < |es| && Peeks(cs[i], es[i])
    ensures Content(cs, es, i) > 0 && Safe(cs[i])
    ensures cs[i].blocks[cs[i].c.fb].data[cs[i].c.bf] == Some(Accepted(cs, es, i)[|Taken(cs, es, i)|])
  {
    RunInv(n, maxBlock, cs, es, i);
    HistObserved(n, maxBlock, cs, es, i);
    ReadValue(cs[i], HistAt(cs, es, i), n, Room(n, maxBlock));
  }

  lemma AssertionsHold(c: Conc, h: Hist, n: nat, m: nat)
    requires Inv(c, h, n, m)
    ensures NextBlockNonEmpty(c) && NextBlockEmpty(c)
  {
    if c.c.CLoadNextTail? {
      var id := c.c.nb;
      assert BlockOk(c.blocks[id], h.pos[id], Stored(c, h), Hole(c.c, id), Extra(c.p, id), m);
      NextBlockCount(c.blocks, h);
    }
    if c.p.PLoadNextTail? {
      var id := c.p.nb;
      assert BlockOk(c.blocks[id], h.pos[id], Stored(c, h), Hole(c.c, id), Extra(c.p, id), m);
    }
  }

  /** The two assertions on moving to the next block hold in every reachable state. */
  lemma BothAssertions(n: nat, maxBlock: nat, cs: seq<Conc>, es: seq<Event>, i: nat)
    requires IsRun(n, maxBlock, cs, es) && n >= 1 && i <= |es|
    ensures NextBlockNonEmpty(cs[i]) && NextBlockEmpty(cs[i])
  {
    RunInv(n, maxBlock, cs, es, i);
    AssertionsHold(cs[i], HistAt(cs, es, i), n, Room(n, maxBlock));
  }

  // ---------------------------------------------------------------------------------------------
  // Honest answers
  // ---------------------------------------------------------------------------------------------

  /** If a flag holds at `i`, follow it back to where it was raised. */
  lemma {:induction false} FlagWitness(raised: seq<bool>, flag: seq<bool>, resets: seq<bool>, i: nat) returns (j: nat)
    requires |raised| == |flag| == |resets| + 1 && i < |flag| && flag[i]
    requires flag[0] ==> raised[0]
    requires forall k {:trigger resets[k]} :: 0 <= k < |resets| ==>
               flag[k + 1] ==> raised[k + 1] || (flag[k] && !resets[k])
    ensures j <= i && raised[j]
    ensures forall k {:trigger resets[k]} :: j <= k < i ==> !resets[k]
  {
    if raised[i] {
      j := i;
    } else {
      var k := i - 1;
      var reset := resets[k];
      assert flag[k + 1] && !raised[k + 1];
      assert flag[k] && !reset;
      j := FlagWitness(raised, flag, resets, k);
    }
  }

  lemma EmptyFlags(cs: seq<Conc>, es: seq<Event>, i: nat) returns (raised: seq<bool>, flag: seq<bool>)
    requires i <= |es| < |cs|
    ensures |raised| == |flag| == i + 1 && flag[i] == HistAt(cs, es, i).sawEmpty
    ensures forall k :: 0 <= k <= i ==> raised[k] == (Held(HistAt(cs, es, k)) == 0)
    ensures forall k {:trigger es[k]} :: 0 <= k < i ==>
              flag[k + 1] ==> raised[k + 1] || (flag[k] && !BeginsDequeue(cs[k], es[k]))
    ensures flag[0] ==> raised[0]
  {
    if i == 0 {
      raised, flag := [Held(HistAt(cs, es, 0)) == 0], [HistAt(cs, es, 0).sawEmpty];
    } else {
      raised, flag := EmptyFlags(cs, es, i - 1);
      raised, flag := raised + [Held(HistAt(cs, es, i)) == 0], flag + [HistAt(cs, es, i).sawEmpty];
      if flag[i] {
        EmptyStep(cs[i - 1], HistAt(cs, es, i - 1), es[i - 1]);
      }
    }
  }

  lemma EmptyWitness(cs: seq<Conc>, es: seq<Event>, i: nat) returns (j: nat)
    requires i <= |es| < |cs| && HistAt(cs, es, i).sawEmpty
    ensures j <= i && Held(HistAt(cs, es, j)) == 0
    ensures forall k :: j <= k < i ==> !BeginsDequeue(cs[k], es[k])
  {
    var raised, flag := EmptyFlags(cs, es, i);
    var resets := seq(i, (k: nat) requires k < i => BeginsDequeue(cs[k], es[k]));
    assert forall k {:trigger resets[k]} :: 0 <= k < i ==> resets[k] == BeginsDequeue(cs[k], es[k]);
    j := FlagWitness(raised, flag, resets, i);
    forall k | j <= k < i
      ensures !BeginsDequeue(cs[k], es[k])
    {
      assert !resets[k];
    }
  }

  lemma EmptyDecision(c: Conc, h: Hist, n: nat, m: nat)
    requires Inv(c, h, n, m) && c.c.CLoadTailBlock? && c.c.fb == c.tailBlock
    ensures h.sawEmpty
  {
  }

  /** A consumer call that reports an empty queue was preceded, within that call, by an instant of emptiness. */
  lemma EmptyReportIsTrue(n: nat, maxBlock: nat, cs: seq<Conc>, es: seq<Event>, i: nat) returns (j: nat)
    requires IsRun(n, maxBlock, cs, es) && n >= 1 && i < |es| && ReportsEmpty(cs[i], es[i])
    ensures j <= i && Accepted(cs, es, j) == Taken(cs, es, j)
    ensures forall k :: j <= k < i ==> !BeginsDequeue(cs[k], es[k])
  {
    RunInv(n, maxBlock, cs, es, i);
    EmptyDecision(cs[i], HistAt(cs, es, i), n, Room(n, maxBlock));
    j := EmptyWitness(cs, es, i);
    HistObserved(n, maxBlock, cs, es, j);
    Fifo(n, maxBlock, cs, es, j);
  }

  lemma PeakFlags(cs: seq<Conc>, es: seq<Event>, i: nat, q: nat) returns (raised: seq<bool>, flag: seq<bool>)
    requires i <= |es| < |cs| && q >= 1
    ensures |raised| == |flag| == i + 1 && flag[i] == (HistAt(cs, es, i).peak >= q) && !flag[0]
    ensures forall k :: 0 <= k <= i ==> raised[k] == (Held(HistAt(cs, es, k)) >= q)
    ensures forall k {:trigger es[k]} :: 0 <= k < i ==>
              flag[k + 1] ==> raised[k + 1] || (flag[k] && !BeginsEnqueue(cs[k], es[k]))
  {
    if i == 0 {
      raised, flag := [Held(HistAt(cs, es, 0)) >= q], [HistAt(cs, es, 0).peak >= q];
    } else {
      raised, flag := PeakFlags(cs, es, i - 1, q);
      raised, flag := raised + [Held(HistAt(cs, es, i)) >= q], flag + [HistAt(cs, es, i).peak >= q];
      if flag[i] {
        PeakStep(cs[i - 1], HistAt(cs, es, i - 1), es[i - 1], q);
      }
    }
  }

  lemma PeakWitness(cs: seq<Conc>, es: seq<Event>, i: nat, q: nat) returns (j: nat)
    requires i <= |es| < |cs| && HistAt(cs, es, i).peak >= q >= 1
    ensures j <= i && Held(HistAt(cs, es, j)) >= q
    ensures forall k :: j <= k < i ==> !BeginsEnqueue(cs[k], es[k])
  {
    var raised, flag := PeakFlags(cs, es, i, q);
    var resets := seq(i, (k: nat) requires k < i => BeginsEnqueue(cs[k], es[k]));
    assert forall k {:trigger resets[k]} :: 0 <= k < i ==> resets[k] == BeginsEnqueue(cs[k], es[k]);
    j := FlagWitness(raised, flag, resets, i);
    forall k | j <= k < i
      ensures !BeginsEnqueue(cs[k], es[k])
    {
      assert !resets[k];
    }
  }

  /** With every block from the second up to the `k`-th full, the queue holds at least `k * m`. */
  lemma {:induction false} FullBlocks(c: Conc, h: Hist, n: nat, m: nat, k: nat)
    requires Inv(c, h, n, m) && k <= h.tp
    requires h.tp > 0 ==> Count(c.blocks[h.chain[h.tp]]) == |c.blocks[h.chain[h.tp]].data| - 1
    ensures h.pos[h.chain[k]] + Count(c.blocks[h.chain[k]]) >= |h.taken| + k * m
  {
    var id := h.chain[k];
    assert BlockOk(c.blocks[id], h.pos[id], Stored(c, h), Hole(c.c, id), Extra(c.p, id), m);
    if k > 0 {
      FullBlocks(c, h, n, m, k - 1);
      assert h.pos[h.chain[k - 1]] + Count(c.blocks[h.chain[k - 1]]) == h.pos[h.chain[k - 1 + 1]];
      assert k * m == (k - 1) * m + m;
    }
  }

  lemma NextOnRing(bs: seq<Block>, chain: seq<nat>, tp: nat)
    requires RingOk(bs, chain, tp)
    ensures tp + 1 < |chain| ==> bs[chain[tp]].next != chain[0]
  {
    if tp + 1 < |chain| {
      assert bs[chain[tp]].next == chain[tp + 1];
    }
  }

  lemma FullDecision(c: Conc, h: Hist, n: nat, m: nat, e: Event)
    requires Inv(c, h, n, m) && FindsFull(c, e)
    ensures Held(h) >= n || h.peak >= n
  {
    NextOnRing(c.blocks, h.chain, h.tp);
    if h.tp + 1 == |h.chain| {
      FullBlocks(c, h, n, m, h.tp);
    }
  }

  /** An enqueue that finds no room saw, during that call, a queue holding at least the `n` it was built for. */
  lemma FoundFullMeansFull(n: nat, maxBlock: nat, cs: seq<Conc>, es: seq<Event>, i: nat) returns (j: nat)
    requires IsRun(n, maxBlock, cs, es) && n >= 1 && i < |es| && FindsFull(cs[i], es[i])
    ensures j <= i && Content(cs, es, j) >= n
    ensures forall k :: j <= k < i ==> !BeginsEnqueue(cs[k], es[k])
  {
    RunInv(n, maxBlock, cs, es, i);
    HistObserved(n, maxBlock, cs, es, i);
    FullDecision(cs[i], HistAt(cs, es, i), n, Room(n, maxBlock), es[i]);
    if Content(cs, es, i) >= n {
      j := i;
    } else {
      j := PeakWitness(cs, es, i, n);
      HistObserved(n, maxBlock, cs, es, j);
    }
  }

  /** A refused `try_enqueue` saw, during that call, a queue holding at least the `n` it was built for. */
  lemma RefusalMeansFull(n: nat, maxBlock: nat, cs: seq<Conc>, es: seq<Event>, i: nat) returns (j: nat)
    requires IsRun(n, maxBlock, cs, es) && n >= 1 && i < |es| && Refuses(cs[i], es[i])
    ensures j <= i && Content(cs, es, j) >= n
    ensures forall k :: j <= k < i ==> !BeginsEnqueue(cs[k], es[k])
  {
    j := FoundFullMeansFull(n, maxBlock, cs, es, i);
  }

  // ---------------------------------------------------------------------------------------------
  // Index arithmetic
  // ---------------------------------------------------------------------------------------------

  ghost predicate SizesOk(c: Conc) {
    IsPow2(c.largest) && forall i {:trigger c.blocks[i]} :: 0 <= i < |c.blocks| ==> IsPow2(|c.blocks[i].data|)
  }

  lemma DoublePow2(x: nat)
    requires IsPow2(x)
    ensures IsPow2(2 * x)
  {
  }

  lemma SizesStep(c: Conc, e: Event)
    requires Safe(c) && SizesOk(c)
    ensures SizesOk(Step(c, e))
  {
    DoublePow2(c.largest);
    assert forall i {:trigger Step(c, e).blocks[i]} :: 0 <= i < |c.blocks| ==>
      |Step(c, e).blocks[i].data| == |c.blocks[i].data|;
  }

  lemma {:induction false} RunSizes(n: nat, maxBlock: nat, cs: seq<Conc>, es: seq<Event>, i: nat)
    requires IsRun(n, maxBlock, cs, es) && i <= |es|
    ensures SizesOk(cs[i])
  {
    if i == 0 {
      CeilToPow2Correct(n + 1);
      var size := LayoutOk(CeilToPow2(n + 1), n, maxBlock);
      EmptyBlocksAre(cs[0], size);
    } else {
      RunSizes(n, maxBlock, cs, es, i - 1);
      assert Follows(cs[i - 1], es[i - 1], cs[i - 1 + 1]);
      SizesStep(cs[i - 1], es[i - 1]);
    }
  }

  /** The index step of the model is `(i + 1) & sizeMask` on every block of every run. */
  lemma IncIsMask(n: nat, maxBlock: nat, cs: seq<Conc>, es: seq<Event>, i: nat, id: nat, j: nat)
    requires IsRun(n, maxBlock, cs, es) && i <= |es|
    requires id < |cs[i].blocks| && j < |cs[i].blocks[id].data|
    ensures var size := |cs[i].blocks[id].data|; Inc(j, size) == And(j + 1, size - 1)
  {
    RunSizes(n, maxBlock, cs, es, i);
    var size := |cs[i].blocks[id].data|;
    var k := Log2(size);
    MaskedIncrement(j, k);
  }
}
