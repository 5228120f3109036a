/** What the RLC sender keeps: a byte FIFO, counters, bounds on what it returns, and what a null result means. */
module RlcFlow {
  import opened Options
  import opened Bytes
  import opened RlcSegmentation
  import opened RlcSender
  import PowersOfTwo
  import SpscCapacity

  /** The bytes waiting, in the order they will go out. */
  function Flow(r: Rlc): seq<Byte> {
    Join(r.segments) + PacketBytes(r.packets)
  }

  /** The payload of what was handed out. */
  function Taken(out: Option<Pdu>): seq<Byte> {
    if out.Some? && |out.value.bytes| >= HEADER_SIZE then out.value.bytes[HEADER_SIZE..] else []
  }

  /** The 32-bit counters of what came in and what went out differ by what is held. */
  ghost predicate CountersAgree(r: Rlc) {
    && r.buffered == Bump(r.dequeued, |r.packets|)
    && r.created == Bump(r.segmentsDequeued, |r.segments|)
  }

  /** What every run keeps, for a segment buffer that takes something. */
  ghost predicate RlcInv(r: Rlc) {
    && Counted(r) && CountersAgree(r)
    && r.capacity > 0 && r.maxSegment > 100
    && (forall p :: p in r.packets ==> |p.data| >= IPV4_HEADER && p.id < SEQ_NUM_MASK)
    && (forall s :: s in r.segments ==> |s.data| > 0)
  }

  // ---------------------------------------------------------------------------------------------
  // Cutting
  // ---------------------------------------------------------------------------------------------

  function MaxPayload(r: Rlc, budget: nat): nat {
    if Effective(r, budget) > HEADER_SIZE then Effective(r, budget) - HEADER_SIZE else 0
  }

  /** The number of segments the front packet needs. */
  function Needed(r: Rlc, budget: nat): nat
    requires r.packets != [] && MaxPayload(r, budget) > 0
  {
    Count(|r.packets[0].data|, MaxPayload(r, budget))
  }

  lemma {:induction false} JoinStamped(segments: seq<Segment>, poll: bool, p: Packet)
    ensures Join(Stamped(segments, poll, p)) == Join(segments)
  {
    if segments != [] {
      var k := |segments| - 1;
      JoinStamped(segments[..k], poll, p);
      assert Stamped(segments, poll, p)[..k] == Stamped(segments[..k], poll, p);
    }
  }

  /** What is queued is part of what was cut, and all of it exactly if no segment was refused. */
  lemma {:induction false} AdmittedBytes(all: seq<Segment>, held: nat, capacity: nat)
    requires forall s :: s in all ==> |s.data| > 0
    ensures var taken := Admitted(all, held, capacity);
            && |Join(taken)| <= |Join(all)|
            && (|taken| == |all| ==> taken == all)
            && (|taken| < |all| ==> |Join(taken)| < |Join(all)|)
            && forall s :: s in taken ==> s in all
  {
    if all != [] {
      AdmittedBytes(all[..|all| - 1], held, capacity);
      var before := Admitted(all[..|all| - 1], held, capacity);
      assert (before + [all[|all| - 1]])[..|before|] == before;
      assert all[|all| - 1] in all;
    }
  }

  /** An empty segment buffer takes all segments up to its capacity. */
  lemma {:induction false} AdmittedCount(all: seq<Segment>, capacity: nat)
    ensures |Admitted(all, 0, capacity)| == if |all| <= capacity then |all| else capacity
  {
    if all != [] {
      AdmittedCount(all[..|all| - 1], capacity);
    }
  }

  /** The first segment always finds room in an empty buffer. */
  lemma {:induction false} AdmittedFirst(all: seq<Segment>, capacity: nat)
    requires all != [] && capacity > 0
    ensures var taken := Admitted(all, 0, capacity); taken != [] && taken[0] == all[0]
  {
    if |all| > 1 {
      assert all[..|all| - 1][0] == all[0];
      AdmittedFirst(all[..|all| - 1], capacity);
    } else {
      assert all[..0] == [];
    }
  }

  /** Every segment of a cut carries data and fits the size it was cut for. */
  lemma FrontSegmentsFit(r: Rlc, budget: nat, s: Segment)
    requires r.packets != [] && s in FrontSegments(r, budget)
    ensures 0 < |s.data| && HEADER_SIZE + |s.data| <= Effective(r, budget)
  {
    var p, max := r.packets[0], MaxPayload(r, budget);
    var all := SegmentsOf(p.data, Effective(r, budget), p.id);
    var i :| 0 <= i < |all| && s == FrontSegments(r, budget)[i];
    OneLast(all, p.data, max, p.id, i);
  }

  lemma TotalIs(len: nat, max: nat)
    requires max > 0
    ensures Count(len, max) < U16 ==> Total(len, max) == Count(len, max)
  {
  }

  /** The segments of the front packet make it up exactly if their number fits 16 bits. */
  lemma FrontSegmentsTile(r: Rlc, budget: nat)
    requires r.packets != [] && MaxPayload(r, budget) > 0
    ensures var all, data := FrontSegments(r, budget), r.packets[0].data;
            && (Needed(r, budget) < U16 ==> |all| == Needed(r, budget))
            && (Join(all) == data <==> Needed(r, budget) < U16)
            && (Join(all) != data ==> |Join(all)| < |data|)
  {
    var p, max := r.packets[0], MaxPayload(r, budget);
    var all := SegmentsOf(p.data, Effective(r, budget), p.id);
    assert all == CutUp(p.data, max, p.id, Total(|p.data|, max));
    TotalIs(|p.data|, max);
    JoinStamped(all, r.pollPending, p);
    SegmentsTileIffCountFits(all, p.data, max, p.id);
  }

  lemma {:induction false} BumpInc(n: nat, k: nat)
    requires k > 0
    ensures Bump(Inc(n), k - 1) == Bump(n, k)
  {
    if k > 1 {
      BumpInc(n, k - 1);
    }
  }

  /**
   What can be checked before a call: if it cuts the front packet, the number of segments fits 16 bits and the segment
   buffer.
  */
  predicate CutFits(r: Rlc, budget: nat) {
    Choose(r, budget).Cutting? ==> Needed(r, budget) < U16 && Needed(r, budget) <= r.capacity
  }

  /** All segments of a cut are queued, and they make up the packet, exactly if they fit. */
  lemma WholeIffSegmentsFit(r: Rlc, budget: nat)
    requires RlcInv(r) && Choose(r, budget).Cutting?
    ensures Join(Admitted(FrontSegments(r, budget), 0, r.capacity)) == r.packets[0].data <==> CutFits(r, budget)
    ensures !CutFits(r, budget) ==>
              |Join(Admitted(FrontSegments(r, budget), 0, r.capacity))| < |r.packets[0].data|
  {
    var all := FrontSegments(r, budget);
    FrontSegmentsTile(r, budget);
    AdmittedCount(all, r.capacity);
    forall s | s in all ensures |s.data| > 0 {
      FrontSegmentsFit(r, budget, s);
    }
    AdmittedBytes(all, 0, r.capacity);
  }

  lemma DefaultCapacity(bufferSize: nat)
    requires bufferSize == 100
    ensures SegmentCapacity(bufferSize) == 511
  {
    var n := 4 * bufferSize % U32;
    PowersOfTwo.CeilToPow2Correct(n + 1);
    FiveHundredTwelve(n + 1, PowersOfTwo.CeilToPow2(n + 1));
  }

  lemma FiveHundredTwelve(x: nat, r: nat)
    requires x == 401 && PowersOfTwo.IsCeilPow2(x, r)
    ensures r == 512
  {
    assert PowersOfTwo.Pow2(3) == 8 && PowersOfTwo.Pow2(6) == 64;
    assert PowersOfTwo.Pow2(8) == 256 && PowersOfTwo.Pow2(9) == 512;
    var k := PowersOfTwo.Log2(r);
    if k < 9 {
      PowersOfTwo.Pow2Monotone(k, 8);
    } else {
      PowersOfTwo.Pow2Monotone(9, k);
    }
  }

  /**
   With the default sizes a slot of 100 bytes cuts every packet of more than 84 bytes, and loses the end of exactly
   those longer than 39858 bytes.
  */
  lemma SmallSlotOverflows(r: Rlc)
    requires RlcInv(r) && r.bufferSize == 100 && r.capacity == SegmentCapacity(r.bufferSize) && r.maxSegment == 1500
    requires r.segments == [] && r.packets != [] && 84 < |r.packets[0].data| < U16
    ensures Choose(r, 100).Cutting?
    ensures CutFits(r, 100) <==> |r.packets[0].data| <= 39858
  {
    var n := |r.packets[0].data|;
    DefaultCapacity(r.bufferSize);
    assert Effective(r, 100) == 100 && MaxPayload(r, 100) == 78;
    CountZero(n, 78);
    FrontSegmentsTile(r, 100);
    assert Needed(r, 100) == (n + 77) / 78;
  }

  /** The buffers after a cut. */
  lemma CutBuffers(r: Rlc, budget: nat)
    requires RlcInv(r) && Choose(r, budget).Cutting?
    ensures var r', taken := CutOut(r, budget), Admitted(FrontSegments(r, budget), 0, r.capacity);
            && r'.segments == taken && r'.packets == r.packets[1..]
            && r'.created == Bump(r.created, |taken|) && r'.dequeued == Inc(r.dequeued)
            && r'.segmentsDequeued == r.segmentsDequeued && r'.buffered == r.buffered
            && r'.capacity == r.capacity && r'.maxSegment == r.maxSegment
  {
  }

  /** A cut leaves the bytes as they are, or loses some for good. */
  lemma CutFlow(r: Rlc, budget: nat)
    requires RlcInv(r) && Choose(r, budget).Cutting?
    ensures CutFits(r, budget) ==> Flow(CutOut(r, budget)) == Flow(r)
    ensures !CutFits(r, budget) ==> |Flow(CutOut(r, budget))| < |Flow(r)|
  {
    WholeIffSegmentsFit(r, budget);
    PacketBytesFront(r.packets);
    CutBuffers(r, budget);
    var taken, rest := CutOut(r, budget).segments, PacketBytes(r.packets[1..]);
    assert Flow(CutOut(r, budget)) == Join(taken) + rest;
    assert Flow(r) == r.packets[0].data + rest by {
      assert Join(r.segments) == [];
    }
  }

  lemma CutKeepsInv(r: Rlc, budget: nat)
    requires RlcInv(r) && Choose(r, budget).Cutting?
    ensures var r' := CutOut(r, budget);
            && RlcInv(r') && r'.segments != []
            && HEADER_SIZE + |r'.segments[0].data| <= budget
  {
    var all := FrontSegments(r, budget);
    CutBuffers(r, budget);
    AdmittedFirst(all, r.capacity);
    forall s | s in all ensures 0 < |s.data| && HEADER_SIZE + |s.data| <= budget {
      FrontSegmentsFit(r, budget, s);
    }
    AdmittedBytes(all, 0, r.capacity);
    assert all[0] in all;
    InvAfterCut(r, CutOut(r, budget), all);
  }

  lemma InvAfterCut(r: Rlc, r': Rlc, all: seq<Segment>)
    requires RlcInv(r) && r.packets != [] && r.segments == [] && Counted(r')
    requires r'.packets == r.packets[1..] && r'.capacity == r.capacity && r'.maxSegment == r.maxSegment
    requires r'.buffered == r.buffered && r'.dequeued == Inc(r.dequeued)
    requires r'.segmentsDequeued == r.segmentsDequeued && r'.created == Bump(r.created, |r'.segments|)
    requires forall s :: s in all ==> |s.data| > 0
    requires forall s :: s in r'.segments ==> s in all
    ensures RlcInv(r')
  {
    BumpInc(r.dequeued, |r.packets|);
  }

  // ---------------------------------------------------------------------------------------------
  // One dequeue
  // ---------------------------------------------------------------------------------------------

  lemma FrontKeepsInv(r: Rlc)
    requires RlcInv(r) && r.segments != []
    ensures RlcInv(FrontOut(r).0)
  {
    BumpInc(r.segmentsDequeued, |r.segments|);
  }

  lemma FrontFlow(r: Rlc)
    requires RlcInv(r) && r.segments != []
    ensures var (r', out) := FrontOut(r);
            && out.Some?
            && Taken(out) + Flow(r') == Flow(r)
            && |out.value.bytes| == HEADER_SIZE + |r.segments[0].data|
  {
    JoinFront(r.segments);
    var (r', out) := FrontOut(r);
    Regroup(Taken(out), Join(r'.segments), PacketBytes(r'.packets));
  }

  lemma Regroup(a: seq<Byte>, b: seq<Byte>, c: seq<Byte>)
    ensures a + (b + c) == (a + b) + c
  {
  }

  lemma WholeKeepsInv(r: Rlc, junk: nat)
    requires RlcInv(r) && r.packets != []
    ensures RlcInv(WholeOut(r, junk).0)
  {
    BumpInc(r.dequeued, |r.packets|);
  }

  lemma WholeFlow(r: Rlc, junk: nat)
    requires RlcInv(r) && r.segments == [] && r.packets != []
    ensures var (r', out) := WholeOut(r, junk);
            && out.Some?
            && Taken(out) + Flow(r') == Flow(r)
            && |out.value.bytes| == HEADER_SIZE + |r.packets[0].data|
  {
    PacketBytesFront(r.packets);
    var (r', out) := WholeOut(r, junk);
    assert Flow(r') == PacketBytes(r'.packets) && Flow(r) == PacketBytes(r.packets);
  }

  lemma TimerKeeps(r: Rlc, expired: bool)
    requires RlcInv(r)
    ensures RlcInv(CheckPollTimer(r, expired)) && Flow(CheckPollTimer(r, expired)) == Flow(r)
  {
  }

  /** The call after a cut always hands out a segment that fits: `dequeuePacket` recurses at most once. */
  lemma RecursesAtMostOnce(r: Rlc, budget: nat, x: Input, depth: nat)
    requires RlcInv(r)
    requires Choose(CheckPollTimer(r, x.expired(depth)), budget).Cutting?
    ensures var r1 := CutOut(CheckPollTimer(r, x.expired(depth)), budget);
            var r2 := CheckPollTimer(r1, x.expired(depth + 1));
            && RlcInv(r2) && Choose(r2, budget).Front?
            && Dequeue(r, budget, x, depth) == FrontOut(r2)
  {
    var r0 := CheckPollTimer(r, x.expired(depth));
    TimerKeeps(r, x.expired(depth));
    DequeueUnfolds(r, r0, budget, x, depth);
    CutKeepsInv(r0, budget);
    var r1 := CutOut(r0, budget);
    TimerKeeps(r1, x.expired(depth + 1));
    DequeueUnfolds(r1, CheckPollTimer(r1, x.expired(depth + 1)), budget, x, depth + 1);
  }

  lemma TimerKeepsChoice(r: Rlc, expired: bool, budget: nat)
    ensures Choose(CheckPollTimer(r, expired), budget) == Choose(r, budget)
    ensures CutFits(CheckPollTimer(r, expired), budget) == CutFits(r, budget)
  {
    var r0 := CheckPollTimer(r, expired);
    assert Effective(r0, budget) == Effective(r, budget);
  }

  /** The bytes handed out, followed by the bytes still waiting, are the bytes that were waiting. */
  lemma DequeueFlow(r: Rlc, budget: nat, x: Input, depth: nat, r': Rlc, out: Option<Pdu>)
    requires RlcInv(r) && Dequeue(r, budget, x, depth) == (r', out)
    ensures RlcInv(r')
    ensures CutFits(r, budget) ==> Taken(out) + Flow(r') == Flow(r)
    ensures !CutFits(r, budget) ==> |Taken(out)| + |Flow(r')| < |Flow(r)|
  {
    var r0 := CheckPollTimer(r, x.expired(depth));
    TimerKeeps(r, x.expired(depth));
    TimerKeepsChoice(r, x.expired(depth), budget);
    DequeueUnfolds(r, r0, budget, x, depth);
    match Choose(r0, budget)
    case Nothing =>
      assert Taken(out) + Flow(r') == Flow(r');
    case Front =>
      FrontKeepsInv(r0);
      FrontFlow(r0);
    case Whole =>
      WholeKeepsInv(r0, x.junk);
      WholeFlow(r0, x.junk);
    case Cutting =>
      CutFlow(r0, budget);
      RecursesAtMostOnce(r, budget, x, depth);
      var r1 := CutOut(r0, budget);
      CutKeepsInv(r0, budget);
      TimerKeeps(r1, x.expired(depth + 1));
      FrontKeepsInv(CheckPollTimer(r1, x.expired(depth + 1)));
      FrontFlow(CheckPollTimer(r1, x.expired(depth + 1)));
      assert |Taken(out) + Flow(r')| == |Flow(r1)|;
  }

  /** When nothing is handed out both buffers and all counters stay; only the poll flag may be set by the timer. */
  lemma NullChangesNothing(r: Rlc, budget: nat, x: Input, depth: nat, r': Rlc)
    requires RlcInv(r) && Dequeue(r, budget, x, depth) == (r', None)
    ensures r' == r.(pollPending := r'.pollPending)
    ensures Choose(r', budget).Nothing?
  {
    var r0 := CheckPollTimer(r, x.expired(depth));
    DequeueUnfolds(r, r0, budget, x, depth);
    if Choose(r0, budget).Cutting? {
      RecursesAtMostOnce(r, budget, x, depth);
    }
  }

  /** Exactly when something is handed out. */
  lemma SomethingIff(r: Rlc, budget: nat, x: Input, depth: nat)
    requires RlcInv(r)
    ensures Dequeue(r, budget, x, depth).1.Some? <==> !Choose(CheckPollTimer(r, x.expired(depth)), budget).Nothing?
  {
    var r0 := CheckPollTimer(r, x.expired(depth));
    DequeueUnfolds(r, r0, budget, x, depth);
    if Choose(r0, budget).Cutting? {
      RecursesAtMostOnce(r, budget, x, depth);
    }
  }

  /**
   The size test counts 16 bytes for a header of 22: a result is at most 6 bytes over the budget, and it is over the
   budget exactly when a whole packet was sent that fits with 16 bytes but not with 22.
  */
  lemma ResultSize(r: Rlc, budget: nat, x: Input, depth: nat, r': Rlc, out: Option<Pdu>)
    requires RlcInv(r) && Dequeue(r, budget, x, depth) == (r', out) && out.Some?
    ensures HEADER_SIZE < |out.value.bytes| <= budget + 6
    ensures |out.value.bytes| > budget <==>
              && r.segments == [] && r.packets != []
              && |r.packets[0].data| + 16 <= budget < |r.packets[0].data| + HEADER_SIZE
  {
    var r0 := CheckPollTimer(r, x.expired(depth));
    TimerKeeps(r, x.expired(depth));
    DequeueUnfolds(r, r0, budget, x, depth);
    match Choose(r0, budget)
    case Nothing =>
    case Front =>
      FrontFlow(r0);
      assert r0.segments[0] in r0.segments;
    case Whole =>
      WholeFlow(r0, x.junk);
      assert r0.packets[0] in r0.packets;
    case Cutting =>
      RecursesAtMostOnce(r, budget, x, depth);
      var r2 := CheckPollTimer(CutOut(r0, budget), x.expired(depth + 1));
      FrontFlow(r2);
      assert r2.segments[0] in r2.segments;
  }

  /** A whole packet goes out as the one segment of itself, under its own id, queue and priority. */
  lemma WholePduDecodes(r: Rlc, junk: nat)
    requires RlcInv(r) && r.packets != [] && |r.packets[0].data| < U16 && junk < U32
    ensures var p, s := r.packets[0], Deserialize(WholeOut(r, junk).1.value.bytes);
            && s.data == p.data && s.header.packetId == p.id && s.header.originalSize == |p.data|
            && s.header.number == 0 && s.header.total == 1 && s.header.last && s.header.poll == r.pollPending
            && s.header.queueId == p.queueId && s.header.priority == p.priority
  {
    var p := r.packets[0];
    assert p in r.packets;
    var s := WholePacket(p, r.pollPending, junk);
    SegmentRoundTrip(s);
    assert WholeOut(r, junk).1.value.bytes == Serialize(s);
  }

  /** A pending poll goes on the last of the new segments and on no other. */
  lemma PollGoesOnLast(r: Rlc, budget: nat, i: nat)
    requires r.packets != [] && i < |FrontSegments(r, budget)|
    ensures FrontSegments(r, budget)[i].header.poll <==> r.pollPending && i == |FrontSegments(r, budget)| - 1
  {
    var p := r.packets[0];
    var all := SegmentsOf(p.data, Effective(r, budget), p.id);
    var max := MaxPayload(r, budget);
    OneLast(all, p.data, max, p.id, i);
    assert all[i] == SegmentAt(p.data, max, p.id, Total(|p.data|, max), i);
  }

  // ---------------------------------------------------------------------------------------------
  // Runs
  // ---------------------------------------------------------------------------------------------

  lemma EnqueueFlow(r: Rlc, data: seq<Byte>, queueId: Byte, priority: Byte, room: bool)
    requires RlcInv(r)
    ensures var (r', ok) := Enqueue(r, data, queueId, priority, room);
            && RlcInv(r')
            && Flow(r') == (if ok then Flow(r) + data else Flow(r))
            && (ok <==> |data| >= IPV4_HEADER && (|r.packets| < r.bufferSize || room))
  {
    var (r', ok) := Enqueue(r, data, queueId, priority, room);
    if ok {
      assert r'.packets[..|r.packets|] == r.packets;
    }
  }

  datatype Op =
    | Put(data: seq<Byte>, queueId: Byte, priority: Byte, room: bool)
    | Get(budget: nat, x: Input)
    | Resize(size: nat)

  /** `accepted` and `taken` are the bytes of all packets accepted and of all results. */
  datatype Line = Line(r: Rlc, accepted: seq<Byte>, taken: seq<Byte>)

  ghost predicate Step(a: Line, op: Op, b: Line)
    requires Counted(a.r)
  {
    match op
    case Put(data, q, p, room) =>
      var (r', ok) := Enqueue(a.r, data, q, p, room);
      b == Line(r', if ok then a.accepted + data else a.accepted, a.taken)
    case Get(budget, x) =>
      var (r', out) := Dequeue(a.r, budget, x, 0);
      b == Line(r', a.accepted, a.taken + Taken(out))
    case Resize(size) => b == a.(r := SetMaxSegment(a.r, size))
  }

  /** `whole`: every cut so far fitted. */
  ghost predicate LineInv(a: Line, whole: bool) {
    && RlcInv(a.r)
    && (whole ==> a.taken + Flow(a.r) == a.accepted)
    && (!whole ==> |a.taken| + |Flow(a.r)| < |a.accepted|)
  }

  lemma PutKeeps(a: Line, op: Op, b: Line, whole: bool)
    requires LineInv(a, whole) && op.Put? && Step(a, op, b)
    ensures LineInv(b, whole)
  {
    EnqueueFlow(a.r, op.data, op.queueId, op.priority, op.room);
    Regroup(a.taken, Flow(a.r), op.data);
  }

  lemma GetKeeps(a: Line, op: Op, b: Line, whole: bool)
    requires LineInv(a, whole) && op.Get? && Step(a, op, b)
    ensures LineInv(b, whole && CutFits(a.r, op.budget))
  {
    var (r', out) := Dequeue(a.r, op.budget, op.x, 0);
    DequeueFlow(a.r, op.budget, op.x, 0, r', out);
    Regroup(a.taken, Taken(out), Flow(r'));
    if whole {
      assert |a.accepted| == |a.taken| + |Flow(a.r)|;
    }
  }

  lemma ResizeKeeps(a: Line, op: Op, b: Line, whole: bool)
    requires LineInv(a, whole) && op.Resize? && Step(a, op, b)
    ensures LineInv(b, whole)
  {
  }

  ghost predicate IsRun(lines: seq<Line>, ops: seq<Op>, bufferSize: nat, poll: bool) {
    && |lines| == |ops| + 1
    && lines[0] == Line(Initial(bufferSize, poll), [], [])
    && forall i :: 0 <= i < |ops| ==> Counted(lines[i].r) && Step(lines[i], ops[i], lines[i + 1])
  }

  /** The buffer sizes with which the segment buffer, built for four times as much in 32 bits, takes something. */
  predicate UsableSize(bufferSize: nat) {
    4 * bufferSize % U32 > 0
  }

  lemma CapacityPositive(bufferSize: nat)
    requires UsableSize(bufferSize)
    ensures SegmentCapacity(bufferSize) >= 4 * bufferSize % U32
  {
    FiveHundredTwelveIsPow2();
    SpscCapacity.CapacitySuffices(4 * bufferSize % U32, BLOCK_SIZE);
  }

  lemma FiveHundredTwelveIsPow2()
    ensures PowersOfTwo.IsPow2(512)
  {
    PowersOfTwo.Pow2IsPow2(9);
    assert PowersOfTwo.Pow2(3) == 8 && PowersOfTwo.Pow2(6) == 64 && PowersOfTwo.Pow2(9) == 512;
  }

  /** Every call up to step `i` that cut a packet could queue all of its segments. */
  predicate CutsFit(lines: seq<Line>, ops: seq<Op>, i: nat)
    requires i <= |ops| < |lines|
  {
    forall k :: 0 <= k < i && ops[k].Get? ==> CutFits(lines[k].r, ops[k].budget)
  }

  lemma {:induction false} RunKeeps(lines: seq<Line>, ops: seq<Op>, bufferSize: nat, poll: bool, i: nat)
    requires UsableSize(bufferSize) && IsRun(lines, ops, bufferSize, poll) && i <= |ops|
    ensures LineInv(lines[i], CutsFit(lines, ops, i))
  {
    if i == 0 {
      CapacityPositive(bufferSize);
    } else {
      RunKeeps(lines, ops, bufferSize, poll, i - 1);
      var before := CutsFit(lines, ops, i - 1);
      if ops[i - 1].Put? {
        PutKeeps(lines[i - 1], ops[i - 1], lines[i], before);
        assert CutsFit(lines, ops, i) == before;
      } else if ops[i - 1].Resize? {
        ResizeKeeps(lines[i - 1], ops[i - 1], lines[i], before);
        assert CutsFit(lines, ops, i) == before;
      } else {
        GetKeeps(lines[i - 1], ops[i - 1], lines[i], before);
        assert CutsFit(lines, ops, i) == (before && CutFits(lines[i - 1].r, ops[i - 1].budget));
      }
    }
  }

  /**
   The sender is a byte FIFO: in every run the payloads handed out, then the segment buffer, then the packet buffer are
   all the bytes accepted, in order, if and only if each packet that was cut needed no more segments than 16 bits count
   and the segment buffer takes.
  */
  lemma ByteFifoIffCutsFit(lines: seq<Line>, ops: seq<Op>, bufferSize: nat, poll: bool, i: nat)
    requires UsableSize(bufferSize) && IsRun(lines, ops, bufferSize, poll) && i <= |ops|
    ensures var l := lines[i];
            l.taken + Join(l.r.segments) + PacketBytes(l.r.packets) == l.accepted <==> CutsFit(lines, ops, i)
  {
    RunKeeps(lines, ops, bufferSize, poll, i);
    var l := lines[i];
    assert l.taken + Join(l.r.segments) + PacketBytes(l.r.packets) == l.taken + Flow(l.r);
    assert |l.taken + Flow(l.r)| == |l.taken| + |Flow(l.r)|;
  }

  /** In every run the byte and packet counters equal what is in the buffers. */
  lemma CountersMatchBuffers(lines: seq<Line>, ops: seq<Op>, bufferSize: nat, poll: bool, i: nat)
    requires UsableSize(bufferSize) && IsRun(lines, ops, bufferSize, poll) && i <= |ops|
    ensures var r := lines[i].r;
            && r.packetBytes == |PacketBytes(r.packets)| && r.segmentBytes == |Join(r.segments)|
            && CountersAgree(r)
  {
    RunKeeps(lines, ops, bufferSize, poll, i);
  }
}
