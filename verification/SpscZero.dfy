/**
 A queue constructed for zero elements starts with a one-slot block, whose index never moves: the
 block can be written to and still look empty. The assertion on moving to the next block then fails.
*/
module SpscZero {
  import opened Options
  import opened PowersOfTwo
  import opened SpscQueue
  import opened SpscRuns
  import opened SpscTheorems

  ghost predicate Reachable(n: nat, maxBlock: nat, c: Conc) {
    exists cs, es :: IsRun(n, maxBlock, cs, es) && cs[|es|] == c
  }

  lemma ReachableStart(n: nat, maxBlock: nat)
    requires ArgumentsOk(n, maxBlock)
    ensures Reachable(n, maxBlock, Initial(n, maxBlock))
  {
    var cs: seq<Conc>, es: seq<Event> := [Initial(n, maxBlock)], [];
    assert IsRun(n, maxBlock, cs, es) && cs[|es|] == Initial(n, maxBlock);
  }

  lemma ReachableStep(n: nat, maxBlock: nat, c: Conc, e: Event)
    requires Reachable(n, maxBlock, c) && Safe(c)
    ensures Reachable(n, maxBlock, Step(c, e))
  {
    var cs, es :| IsRun(n, maxBlock, cs, es) && cs[|es|] == c;
    RunExtends(n, maxBlock, cs, es, e);
    var cs', es' := cs + [Step(c, e)], es + [e];
    assert IsRun(n, maxBlock, cs', es') && cs'[|es'|] == Step(c, e);
  }

  function Shape(blocks: seq<Block>, frontBlock: nat, tailBlock: nat, largest: nat, maxBlock: nat): Conc {
    Conc(blocks, frontBlock, tailBlock, largest, maxBlock, PIdle, CIdle)
  }

  lemma ZeroStart(maxBlock: nat)
    requires ArgumentsOk(0, maxBlock)
    ensures Initial(0, maxBlock) == Shape([Block(0, 0, 0, 0, 0, [None])], 0, 0, 1, maxBlock)
  {
    CeilToPow2Correct(1);
    assert Pow2(0) == 1;
    assert CeilToPow2(1) == 1;
    assert EmptyBlock(1, 0).data == [None];
    assert EmptyRing(1, 1) == [Block(0, 0, 0, 0, 0, [None])];
  }

  /** A thread that moves on alone passes through the given states. */
  lemma {:induction false} Advance(maxBlock: nat, e: Event, cs: seq<Conc>)
    requires cs != [] && Reachable(0, maxBlock, cs[0])
    requires forall k :: 0 <= k < |cs| - 1 ==> Moves(cs[k], e, cs[k + 1])
    ensures Reachable(0, maxBlock, cs[|cs| - 1])
  {
    if |cs| > 1 {
      var k := |cs| - 2;
      Advance(maxBlock, e, cs[..k + 1]);
      assert Moves(cs[k], e, cs[k + 1]);
      ReachableStep(0, maxBlock, cs[k], e);
    }
  }

  predicate Moves(c: Conc, e: Event, c': Conc) {
    Safe(c) && Step(c, e) == c'
  }

  /** The one-slot block counts as full, so the first element goes to a new block. */
  lemma FirstEnqueue(maxBlock: nat, x: Elem)
    requires ArgumentsOk(0, maxBlock)
    requires Reachable(0, maxBlock, Conc([Block(0, 0, 0, 0, 0, [None])], 0, 0, 1, maxBlock, PIdle, CIdle))
    ensures Reachable(0, maxBlock, Conc([Block(0, 0, 0, 0, 1, [None]), Block(0, 1, 1, 0, 0, [Some(x), None])], 0,
          1, 2, maxBlock, PIdle, CIdle))
  {
    var e := ProducerMoves(x, true, true);
    var c0 := Conc([Block(0, 0, 0, 0, 0, [None])], 0, 0, 1, maxBlock, PIdle, CIdle);
    var c1 := c0.(p := PLoadTailBlock(x, true));
    var c2 := c1.(p := PLoadTail(x, true, 0));
    var c3 := c2.(p := PReloadFront(x, true, 0, 0, 0));
    var c4 := c3.(p := PLoadNext(x, true, 0));
    var c5 := c4.(p := PLoadFrontBlock(x, true, 0, 0));
    var c6 := c5.(p := PAlloc(x, 0));
    var c7 := c6.(blocks := [Block(0, 0, 0, 0, 0, [None]), Block(0, 1, 1, 0, 0, [Some(x), None])], largest := 2,
          p := PLink(x, 0, 1));
    var c8 := c7.(blocks := [Block(0, 0, 0, 0, 1, [None]), Block(0, 1, 1, 0, 0, [Some(x), None])],
          p := PStoreTailBlock(x, 1));
    var c9 := c8.(tailBlock := 1, p := PIdle);
    assert Moves(c6, e, c7) by {
      assert NewBlock(x, 2, 0).data == [Some(x), None];
      assert Step(c6, e).blocks == c7.blocks;
    }
    assert Moves(c7, e, c8) by {
      assert Step(c7, e).blocks == c8.blocks;
    }
    Advance(maxBlock, e, [c0, c1, c2, c3, c4, c5, c6, c7, c8, c9]);
  }

  /** The consumer sees that it is not at the tail block. */
  lemma FirstDequeueBegins(maxBlock: nat, x: Elem)
    requires ArgumentsOk(0, maxBlock)
    requires Reachable(0, maxBlock, Conc([Block(0, 0, 0, 0, 1, [None]), Block(0, 1, 1, 0, 0, [Some(x), None])], 0,
          1, 2, maxBlock, PIdle, CIdle))
    ensures Reachable(0, maxBlock, Conc([Block(0, 0, 0, 0, 1, [None]), Block(0, 1, 1, 0, 0, [Some(x), None])], 0,
          1, 2, maxBlock, PIdle, CReloadFront(TryDequeue, 0, 0)))
  {
    var e := ConsumerMoves(TryDequeue);
    var c0 := Conc([Block(0, 0, 0, 0, 1, [None]), Block(0, 1, 1, 0, 0, [Some(x), None])], 0, 1, 2, maxBlock, PIdle,
          CIdle);
    var c1 := c0.(c := CLoadFrontBlock(TryDequeue));
    var c2 := c1.(c := CLoadFront(TryDequeue, 0));
    var c3 := c2.(c := CReloadTail(TryDequeue, 0, 0));
    var c4 := c3.(c := CLoadTailBlock(TryDequeue, 0));
    var c5 := c4.(c := CReloadFrontBlock(TryDequeue));
    var c6 := c5.(c := CReloadTailAgain(TryDequeue, 0));
    var c7 := c6.(c := CReloadFront(TryDequeue, 0, 0));
    Advance(maxBlock, e, [c0, c1, c2, c3, c4, c5, c6, c7]);
  }

  /** The consumer moves on and leaves the one-slot block to the producer. */
  lemma FirstDequeueEnds(maxBlock: nat, x: Elem)
    requires ArgumentsOk(0, maxBlock)
    requires Reachable(0, maxBlock, Conc([Block(0, 0, 0, 0, 1, [None]), Block(0, 1, 1, 0, 0, [Some(x), None])], 0,
          1, 2, maxBlock, PIdle, CReloadFront(TryDequeue, 0, 0)))
    ensures Reachable(0, maxBlock, Conc([Block(0, 0, 0, 0, 1, [None]), Block(1, 1, 1, 0, 0, [None, None])], 1, 1,
          2, maxBlock, PIdle, CIdle))
  {
    var e := ConsumerMoves(TryDequeue);
    var c0 := Conc([Block(0, 0, 0, 0, 1, [None]), Block(0, 1, 1, 0, 0, [Some(x), None])], 0, 1, 2, maxBlock, PIdle,
          CReloadFront(TryDequeue, 0, 0));
    var c1 := c0.(c := CLoadNext(TryDequeue, 0));
    var c2 := c1.(c := CLoadNextFront(TryDequeue, 1));
    var c3 := c2.(c := CLoadNextTail(TryDequeue, 1, 0));
    var c4 := c3.(c := CStoreFrontBlock(TryDequeue, 1, 0));
    var c5 := c4.(frontBlock := 1, c := CRead(TryDequeue, 1, 0));
    var c6 := c5.(blocks := [Block(0, 0, 0, 0, 1, [None]), Block(0, 1, 1, 0, 0, [None, None])],
          c := CStoreFront(TryDequeue, 1, 0, x));
    var c7 := c6.(blocks := [Block(0, 0, 0, 0, 1, [None]), Block(1, 1, 1, 0, 0, [None, None])], c := CIdle);
    assert Moves(c5, e, c6) by {
      assert c5.blocks[1].data[0 := None] == [None, None];
      assert Step(c5, e).blocks == c6.blocks;
    }
    assert Moves(c6, e, c7) by {
      assert Step(c6, e).blocks == c7.blocks;
    }
    Advance(maxBlock, e, [c0, c1, c2, c3, c4, c5, c6, c7]);
  }

  /** The two-slot block takes one more element. */
  lemma SecondEnqueue(maxBlock: nat, x: Elem)
    requires ArgumentsOk(0, maxBlock)
    requires Reachable(0, maxBlock, Conc([Block(0, 0, 0, 0, 1, [None]), Block(1, 1, 1, 0, 0, [None, None])], 1, 1,
          2, maxBlock, PIdle, CIdle))
    ensures Reachable(0, maxBlock, Conc([Block(0, 0, 0, 0, 1, [None]), Block(1, 1, 0, 1, 0, [None, Some(x)])], 1,
          1, 2, maxBlock, PIdle, CIdle))
  {
    var e := ProducerMoves(x, true, true);
    var c0 := Conc([Block(0, 0, 0, 0, 1, [None]), Block(1, 1, 1, 0, 0, [None, None])], 1, 1, 2, maxBlock, PIdle, CIdle);
    var c1 := c0.(p := PLoadTailBlock(x, true));
    var c2 := c1.(p := PLoadTail(x, true, 1));
    var c3 := c2.(p := PReloadFront(x, true, 1, 1, 0));
    var c4 := c3.(blocks := [Block(0, 0, 0, 0, 1, [None]), Block(1, 1, 1, 1, 0, [None, None])], p := PWrite(x, 1,
          1, 0));
    var c5 := c4.(blocks := [Block(0, 0, 0, 0, 1, [None]), Block(1, 1, 1, 1, 0, [None, Some(x)])],
          p := PStoreTail(x, 1, 1, 0));
    var c6 := c5.(blocks := [Block(0, 0, 0, 0, 1, [None]), Block(1, 1, 0, 1, 0, [None, Some(x)])], p := PIdle);
    assert Moves(c3, e, c4) by {
      assert Step(c3, e).blocks == c4.blocks;
    }
    assert Moves(c4, e, c5) by {
      assert c4.blocks[1].data[1 := Some(x)] == [None, Some(x)];
      assert Step(c4, e).blocks == c5.blocks;
    }
    assert Moves(c5, e, c6) by {
      assert Step(c5, e).blocks == c6.blocks;
    }
    Advance(maxBlock, e, [c0, c1, c2, c3, c4, c5, c6]);
  }

  /** The two-slot block is full, and the one-slot block is not the consumer's. */
  lemma ThirdEnqueueBegins(maxBlock: nat, x: Elem)
    requires ArgumentsOk(0, maxBlock)
    requires Reachable(0, maxBlock, Conc([Block(0, 0, 0, 0, 1, [None]), Block(1, 1, 0, 1, 0, [None, Some(x)])], 1,
          1, 2, maxBlock, PIdle, CIdle))
    ensures Reachable(0, maxBlock, Conc([Block(0, 0, 0, 0, 1, [None]), Block(1, 1, 0, 1, 0, [None, Some(x)])], 1,
          1, 2, maxBlock, PLoadNextAgain(x, 1), CIdle))
  {
    var e := ProducerMoves(x, true, true);
    var c0 := Conc([Block(0, 0, 0, 0, 1, [None]), Block(1, 1, 0, 1, 0, [None, Some(x)])], 1, 1, 2, maxBlock, PIdle,
          CIdle);
    var c1 := c0.(p := PLoadTailBlock(x, true));
    var c2 := c1.(p := PLoadTail(x, true, 1));
    var c3 := c2.(p := PReloadFront(x, true, 1, 0, 1));
    var c4 := c3.(p := PLoadNext(x, true, 1));
    var c5 := c4.(p := PLoadFrontBlock(x, true, 1, 0));
    var c6 := c5.(p := PLoadNextAgain(x, 1));
    Advance(maxBlock, e, [c0, c1, c2, c3, c4, c5, c6]);
  }

  /** The element put into the one-slot block does not move its tail. */
  lemma ThirdEnqueueEnds(maxBlock: nat, x: Elem)
    requires ArgumentsOk(0, maxBlock)
    requires Reachable(0, maxBlock, Conc([Block(0, 0, 0, 0, 1, [None]), Block(1, 1, 0, 1, 0, [None, Some(x)])], 1,
          1, 2, maxBlock, PLoadNextAgain(x, 1), CIdle))
    ensures Reachable(0, maxBlock, Conc([Block(0, 0, 0, 0, 1, [Some(x)]), Block(1, 1, 0, 1, 0, [None, Some(x)])],
          1, 0, 2, maxBlock, PIdle, CIdle))
  {
    var e := ProducerMoves(x, true, true);
    var c0 := Conc([Block(0, 0, 0, 0, 1, [None]), Block(1, 1, 0, 1, 0, [None, Some(x)])], 1, 1, 2, maxBlock,
          PLoadNextAgain(x, 1), CIdle);
    var c1 := c0.(p := PLoadNextFront(x, 0));
    var c2 := c1.(p := PLoadNextTail(x, 0, 0));
    var c3 := c2.(p := PWriteNext(x, 0, 0));
    var c4 := c3.(blocks := [Block(0, 0, 0, 0, 1, [Some(x)]), Block(1, 1, 0, 1, 0, [None, Some(x)])],
          p := PStoreNextTail(x, 0, 0));
    var c5 := c4.(p := PStoreTailBlock(x, 0));
    var c6 := c5.(tailBlock := 0, p := PIdle);
    assert Moves(c3, e, c4) by {
      assert c3.blocks[0].data[0 := Some(x)] == [Some(x)];
      assert Step(c3, e).blocks == c4.blocks;
    }
    Advance(maxBlock, e, [c0, c1, c2, c3, c4, c5, c6]);
  }

  /** The two-slot block is drained. */
  lemma SecondDequeue(maxBlock: nat, x: Elem)
    requires ArgumentsOk(0, maxBlock)
    requires Reachable(0, maxBlock, Conc([Block(0, 0, 0, 0, 1, [Some(x)]), Block(1, 1, 0, 1, 0, [None, Some(x)])],
          1, 0, 2, maxBlock, PIdle, CIdle))
    ensures Reachable(0, maxBlock, Conc([Block(0, 0, 0, 0, 1, [Some(x)]), Block(0, 0, 0, 1, 0, [None, None])], 1,
          0, 2, maxBlock, PIdle, CIdle))
  {
    var e := ConsumerMoves(TryDequeue);
    var c0 := Conc([Block(0, 0, 0, 0, 1, [Some(x)]), Block(1, 1, 0, 1, 0, [None, Some(x)])], 1, 0, 2, maxBlock,
          PIdle, CIdle);
    var c1 := c0.(c := CLoadFrontBlock(TryDequeue));
    var c2 := c1.(c := CLoadFront(TryDequeue, 1));
    var c3 := c2.(c := CReloadTail(TryDequeue, 1, 1));
    var c4 := c3.(blocks := [Block(0, 0, 0, 0, 1, [Some(x)]), Block(1, 0, 0, 1, 0, [None, Some(x)])],
          c := CRead(TryDequeue, 1, 1));
    var c5 := c4.(blocks := [Block(0, 0, 0, 0, 1, [Some(x)]), Block(1, 0, 0, 1, 0, [None, None])],
          c := CStoreFront(TryDequeue, 1, 1, x));
    var c6 := c5.(blocks := [Block(0, 0, 0, 0, 1, [Some(x)]), Block(0, 0, 0, 1, 0, [None, None])], c := CIdle);
    assert Moves(c3, e, c4) by {
      assert Step(c3, e).blocks == c4.blocks;
    }
    assert Moves(c4, e, c5) by {
      assert c4.blocks[1].data[1 := None] == [None, None];
      assert Step(c4, e).blocks == c5.blocks;
    }
    assert Moves(c5, e, c6) by {
      assert Step(c5, e).blocks == c6.blocks;
    }
    Advance(maxBlock, e, [c0, c1, c2, c3, c4, c5, c6]);
  }

  /** The consumer is about to compare the equal indices of the one-slot block. */
  lemma ThirdDequeue(maxBlock: nat, x: Elem)
    requires ArgumentsOk(0, maxBlock)
    requires Reachable(0, maxBlock, Conc([Block(0, 0, 0, 0, 1, [Some(x)]), Block(0, 0, 0, 1, 0, [None, None])], 1,
          0, 2, maxBlock, PIdle, CIdle))
    ensures Reachable(0, maxBlock, Conc([Block(0, 0, 0, 0, 1, [Some(x)]), Block(0, 0, 0, 1, 0, [None, None])], 1,
          0, 2, maxBlock, PIdle, CLoadNextTail(TryDequeue, 0, 0)))
  {
    var e := ConsumerMoves(TryDequeue);
    var c0 := Conc([Block(0, 0, 0, 0, 1, [Some(x)]), Block(0, 0, 0, 1, 0, [None, None])], 1, 0, 2, maxBlock, PIdle,
          CIdle);
    var c1 := c0.(c := CLoadFrontBlock(TryDequeue));
    var c2 := c1.(c := CLoadFront(TryDequeue, 1));
    var c3 := c2.(c := CReloadTail(TryDequeue, 1, 0));
    var c4 := c3.(c := CLoadTailBlock(TryDequeue, 1));
    var c5 := c4.(c := CReloadFrontBlock(TryDequeue));
    var c6 := c5.(c := CReloadTailAgain(TryDequeue, 1));
    var c7 := c6.(c := CReloadFront(TryDequeue, 1, 0));
    var c8 := c7.(c := CLoadNext(TryDequeue, 1));
    var c9 := c8.(c := CLoadNextFront(TryDequeue, 0));
    var c10 := c9.(c := CLoadNextTail(TryDequeue, 0, 0));
    Advance(maxBlock, e, [c0, c1, c2, c3, c4, c5, c6, c7, c8, c9, c10]);
  }

  /** A queue for zero elements reaches a state where the assertion fails. */
  lemma ZeroFails(maxBlock: nat, x: Elem) returns (c: Conc)
    requires ArgumentsOk(0, maxBlock)
    ensures Reachable(0, maxBlock, c) && !NextBlockNonEmpty(c)
  {
    ReachableStart(0, maxBlock);
    ZeroStart(maxBlock);
    FirstEnqueue(maxBlock, x);
    FirstDequeueBegins(maxBlock, x);
    FirstDequeueEnds(maxBlock, x);
    SecondEnqueue(maxBlock, x);
    ThirdEnqueueBegins(maxBlock, x);
    ThirdEnqueueEnds(maxBlock, x);
    SecondDequeue(maxBlock, x);
    ThirdDequeue(maxBlock, x);
    c := Conc([Block(0, 0, 0, 0, 1, [Some(x)]), Block(0, 0, 0, 1, 0, [None, None])], 1, 0, 2, maxBlock, PIdle,
          CLoadNextTail(TryDequeue, 0, 0));
  }

  /** Both assertions hold in every reachable state exactly when the queue was built for at least one element. */
  lemma AssertionsHoldIffPositive(n: nat, maxBlock: nat, x: Elem)
    requires ArgumentsOk(n, maxBlock)
    ensures (forall c :: Reachable(n, maxBlock, c) ==> NextBlockNonEmpty(c) && NextBlockEmpty(c)) <==> n >= 1
  {
    if n >= 1 {
      forall c | Reachable(n, maxBlock, c)
        ensures NextBlockNonEmpty(c) && NextBlockEmpty(c)
      {
        var cs, es :| IsRun(n, maxBlock, cs, es) && cs[|es|] == c;
        BothAssertions(n, maxBlock, cs, es, |es|);
      }
    } else {
      var c := ZeroFails(maxBlock, x);
    }
  }
}
