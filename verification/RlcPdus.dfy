/** What the RLC sender hands out, PDU by PDU, over every run, and what the receiver makes of it. */
module RlcPdus {
  import opened Options
  import opened Bytes
  import opened RlcSegmentation
  import opened RlcSender
  import opened RlcFlow

  // ---------------------------------------------------------------------------------------------
  // The packets accepted
  // ---------------------------------------------------------------------------------------------

  /** The buffer takes the packet. */
  predicate Takes(r: Rlc, op: Op) {
    op.Put? && |op.data| >= IPV4_HEADER && (|r.packets| < r.bufferSize || op.room)
  }

  /** The packet made of the operation's data; its id counts from 1, in 12 bits. */
  function Numbered(before: nat, op: Op): Packet
    requires op.Put?
  {
    Packet(op.data, (before + 1) % U32 % SEQ_NUM_MASK, op.queueId, op.priority)
  }

  /** The packets accepted by the first `i` steps. */
  function AcceptedPackets(lines: seq<Line>, ops: seq<Op>, i: nat): seq<Packet>
    requires i <= |ops| < |lines|
  {
    if i == 0 then []
    else
      var before, op := AcceptedPackets(lines, ops, i - 1), ops[i - 1];
      if Takes(lines[i - 1].r, op)
      then before + [Numbered(|before|, op)]
      else before
  }

  /** The segment is piece `i` of the packet cut at `max`, for the packet's queue; a poll is only on the last piece. */
  predicate IsPiece(s: Segment, p: Packet, max: nat, i: nat) {
    && max > 0 && i < Total(|p.data|, max) && i * max <= |p.data|
    && s == Stamp(SegmentAt(p.data, max, p.id, Total(|p.data|, max), i), s.header.poll, p.queueId, p.priority)
    && (s.header.poll ==> i == Total(|p.data|, max) - 1)
  }

  ghost predicate PieceOf(s: Segment, accepted: seq<Packet>) {
    exists p, max, i :: p in accepted && IsPiece(s, p, max, i)
  }

  /** The whole packet as one segment; the offset is not set. */
  predicate IsWhole(s: Segment, p: Packet) {
    && s.header.packetId == p.id && s.header.number == 0 && s.header.total == 1 && s.header.last
    && s.header.originalSize == |p.data| % U32 && s.header.segmentSize == |p.data| % U16
    && s.header.queueId == p.queueId && s.header.priority == p.priority && s.data == p.data
  }

  ghost predicate WholeOf(s: Segment, accepted: seq<Packet>) {
    exists p :: p in accepted && IsWhole(s, p)
  }

  /** Everything waiting is an accepted packet, or a piece of one. */
  ghost predicate FromAccepted(r: Rlc, accepted: seq<Packet>) {
    && r.nextId == (|accepted| + 1) % U32
    && (forall p :: p in r.packets ==> p in accepted)
    && (forall s :: s in r.segments ==> PieceOf(s, accepted))
  }

  /** The PDU is the serialised form of a segment that is a piece of an accepted packet, or a whole one. */
  ghost predicate Genuine(pdu: Pdu, accepted: seq<Packet>) {
    exists s: Segment :: pdu.bytes == Serialize(s) && pdu.poll == s.header.poll
                         && (PieceOf(s, accepted) || WholeOf(s, accepted))
  }

  lemma MorePieces(s: Segment, accepted: seq<Packet>, p: Packet)
    requires PieceOf(s, accepted)
    ensures PieceOf(s, accepted + [p])
  {
    var q, max, i :| q in accepted && IsPiece(s, q, max, i);
    assert q in accepted + [p] && IsPiece(s, q, max, i);
  }

  lemma PutKeepsOrigin(a: Line, op: Op, b: Line, accepted: seq<Packet>)
    requires Counted(a.r) && op.Put? && Step(a, op, b) && FromAccepted(a.r, accepted)
    ensures FromAccepted(b.r, if Takes(a.r, op) then accepted + [Numbered(|accepted|, op)] else accepted)
  {
    if Takes(a.r, op) {
      var p := Numbered(|accepted|, op);
      forall s | s in b.r.segments ensures PieceOf(s, accepted + [p]) {
        MorePieces(s, accepted, p);
      }
      NextId(|accepted|);
    }
  }

  lemma NextId(n: nat)
    ensures Inc((n + 1) % U32) == (n + 2) % U32
  {
  }

  // ---------------------------------------------------------------------------------------------
  // One dequeue
  // ---------------------------------------------------------------------------------------------

  lemma FrontOrigin(r: Rlc, accepted: seq<Packet>)
    requires Counted(r) && r.segments != [] && FromAccepted(r, accepted)
    ensures var (r', out) := FrontOut(r);
            FromAccepted(r', accepted) && out.Some? && Genuine(out.value, accepted)
  {
    var s := r.segments[0];
    assert s in r.segments;
    var p, max, i :| p in accepted && IsPiece(s, p, max, i);
    var (r', out) := FrontOut(r);
    var s' := s.(header := s.header.(poll := out.value.poll));
    FrontBytes(r);
    PieceLast(s, p, max, i);
    assert IsPiece(s', p, max, i);
    assert PieceOf(s', accepted);
  }

  lemma PieceLast(s: Segment, p: Packet, max: nat, i: nat)
    requires IsPiece(s, p, max, i)
    ensures s.header.last <==> i == Total(|p.data|, max) - 1
  {
  }

  /** The front segment goes out as it is, but for its poll flag. */
  lemma FrontBytes(r: Rlc)
    requires Counted(r) && r.segments != []
    ensures var s, out := r.segments[0], FrontOut(r).1;
            && out.Some? && out.value.poll == (s.header.poll || (r.pollPending && s.header.last))
            && out.value.bytes == Serialize(s.(header := s.header.(poll := out.value.poll)))
            && FrontOut(r).0.segments == r.segments[1..] && FrontOut(r).0.packets == r.packets
            && FrontOut(r).0.pollPending == (r.pollPending && !s.header.last) && FrontOut(r).0.nextId == r.nextId
  {
    TakeCounted(r);
  }

  lemma WholeOrigin(r: Rlc, junk: nat, accepted: seq<Packet>)
    requires Counted(r) && r.segments == [] && r.packets != [] && FromAccepted(r, accepted)
    ensures var (r', out) := WholeOut(r, junk);
            FromAccepted(r', accepted) && out.Some? && Genuine(out.value, accepted)
  {
    var p := r.packets[0];
    assert p in r.packets;
    DropCounted(r);
    var s := WholePacket(p, r.pollPending, junk);
    assert IsWhole(s, p);
    assert WholeOf(s, accepted);
    assert WholeOut(r, junk).1.value.bytes == Serialize(s) && WholeOut(r, junk).1.value.poll == s.header.poll;
  }

  /** The segments of the front packet are its pieces. */
  lemma FrontSegmentsArePieces(r: Rlc, budget: nat, i: nat)
    requires r.packets != [] && i < |FrontSegments(r, budget)|
    ensures MaxPayload(r, budget) > 0
    ensures IsPiece(FrontSegments(r, budget)[i], r.packets[0], MaxPayload(r, budget), i)
    ensures |FrontSegments(r, budget)| == Total(|r.packets[0].data|, MaxPayload(r, budget))
  {
    var p, max := r.packets[0], MaxPayload(r, budget);
    var all := SegmentsOf(p.data, Effective(r, budget), p.id);
    assert all == CutUp(p.data, max, p.id, Total(|p.data|, max));
    assert all[i] == SegmentAt(p.data, max, p.id, Total(|p.data|, max), i);
  }

  lemma AdmittedIsFront(r: Rlc, budget: nat, s: Segment)
    requires r.packets != [] && s in Admitted(FrontSegments(r, budget), 0, r.capacity)
    ensures s in FrontSegments(r, budget)
  {
    var all := FrontSegments(r, budget);
    forall s | s in all ensures |s.data| > 0 {
      FrontSegmentsFit(r, budget, s);
    }
    AdmittedBytes(all, 0, r.capacity);
  }

  lemma FrontSegmentOrigin(r: Rlc, budget: nat, s: Segment, accepted: seq<Packet>)
    requires r.packets != [] && r.packets[0] in accepted && s in FrontSegments(r, budget)
    ensures PieceOf(s, accepted)
  {
    var i :| 0 <= i < |FrontSegments(r, budget)| && FrontSegments(r, budget)[i] == s;
    FrontSegmentsArePieces(r, budget, i);
  }

  lemma CutKeepsIds(r: Rlc, budget: nat)
    requires Counted(r) && r.packets != []
    ensures CutOut(r, budget).nextId == r.nextId && !CutOut(r, budget).pollPending
  {
  }

  lemma CutOrigin(r: Rlc, budget: nat, accepted: seq<Packet>)
    requires RlcInv(r) && Choose(r, budget).Cutting? && FromAccepted(r, accepted)
    ensures FromAccepted(CutOut(r, budget), accepted)
  {
    var r' := CutOut(r, budget);
    CutBuffers(r, budget);
    CutKeepsIds(r, budget);
    assert r.packets[0] in r.packets;
    forall s | s in r'.segments ensures PieceOf(s, accepted) {
      AdmittedIsFront(r, budget, s);
      FrontSegmentOrigin(r, budget, s, accepted);
    }
    forall p | p in r'.packets ensures p in accepted {
      assert p in r.packets;
    }
  }

  lemma TimerKeepsOrigin(r: Rlc, expired: bool, accepted: seq<Packet>)
    requires FromAccepted(r, accepted)
    ensures FromAccepted(CheckPollTimer(r, expired), accepted)
  {
  }

  lemma DequeueOrigin(r: Rlc, budget: nat, x: Input, accepted: seq<Packet>)
    requires RlcInv(r) && FromAccepted(r, accepted)
    ensures var (r', out) := Dequeue(r, budget, x, 0);
            FromAccepted(r', accepted) && (out.Some? ==> Genuine(out.value, accepted))
  {
    var r0 := CheckPollTimer(r, x.expired(0));
    TimerKeeps(r, x.expired(0));
    TimerKeepsOrigin(r, x.expired(0), accepted);
    DequeueUnfolds(r, r0, budget, x, 0);
    match Choose(r0, budget)
    case Nothing =>
    case Front => FrontOrigin(r0, accepted);
    case Whole => WholeOrigin(r0, x.junk, accepted);
    case Cutting => CuttingOrigin(r, budget, x, r0, accepted);
  }

  lemma CutThenTimer(r: Rlc, budget: nat, expired: bool, accepted: seq<Packet>)
    requires RlcInv(r) && Choose(r, budget).Cutting? && FromAccepted(r, accepted)
    ensures FromAccepted(CheckPollTimer(CutOut(r, budget), expired), accepted)
  {
    CutOrigin(r, budget, accepted);
    TimerKeepsOrigin(CutOut(r, budget), expired, accepted);
  }

  lemma SameOrigin(res: (Rlc, Option<Pdu>), r: Rlc, accepted: seq<Packet>)
    requires Counted(r) && r.segments != [] && FromAccepted(r, accepted) && res == FrontOut(r)
    ensures FromAccepted(res.0, accepted) && res.1.Some? && Genuine(res.1.value, accepted)
  {
    FrontOrigin(r, accepted);
  }

  /** A call that cuts hands out the front of what it has cut. */
  lemma CutResult(r: Rlc, budget: nat, x: Input, depth: nat, r0: Rlc) returns (r2: Rlc, expired: bool)
    requires RlcInv(r) && r0 == CheckPollTimer(r, x.expired(depth)) && Choose(r0, budget).Cutting? && RlcInv(r0)
    ensures expired == x.expired(depth + 1) && r2 == CheckPollTimer(CutOut(r0, budget), expired)
    ensures RlcInv(r2) && r2.segments != [] && Dequeue(r, budget, x, depth) == FrontOut(r2)
  {
    RecursesAtMostOnce(r, budget, x, depth);
    expired := x.expired(depth + 1);
    r2 := CheckPollTimer(CutOut(r0, budget), expired);
  }

  lemma CuttingOrigin(r: Rlc, budget: nat, x: Input, r0: Rlc, accepted: seq<Packet>)
    requires RlcInv(r) && r0 == CheckPollTimer(r, x.expired(0)) && Choose(r0, budget).Cutting? && RlcInv(r0)
    requires FromAccepted(r0, accepted)
    ensures var res := Dequeue(r, budget, x, 0);
            FromAccepted(res.0, accepted) && res.1.Some? && Genuine(res.1.value, accepted)
  {
    var r2, expired := CutResult(r, budget, x, 0, r0);
    CutThenTimer(r0, budget, expired, accepted);
    SameOrigin(Dequeue(r, budget, x, 0), r2, accepted);
  }

  // ---------------------------------------------------------------------------------------------
  // Runs
  // ---------------------------------------------------------------------------------------------

  lemma {:induction false} RunOrigin(lines: seq<Line>, ops: seq<Op>, bufferSize: nat, poll: bool, i: nat)
    requires UsableSize(bufferSize) && IsRun(lines, ops, bufferSize, poll) && i <= |ops|
    ensures FromAccepted(lines[i].r, AcceptedPackets(lines, ops, i))
  {
    if i > 0 {
      var k := i - 1;
      RunOrigin(lines, ops, bufferSize, poll, k);
      RunKeeps(lines, ops, bufferSize, poll, k);
      StepOrigin(lines[k], ops[k], lines[k + 1], AcceptedPackets(lines, ops, k));
    }
  }

  lemma StepOrigin(a: Line, op: Op, b: Line, accepted: seq<Packet>)
    requires RlcInv(a.r) && Step(a, op, b) && FromAccepted(a.r, accepted)
    ensures FromAccepted(b.r, if Takes(a.r, op) then accepted + [Numbered(|accepted|, op)] else accepted)
  {
    match op
    case Put(_, _, _, _) => PutKeepsOrigin(a, op, b, accepted);
    case Get(budget, x) => DequeueOrigin(a.r, budget, x, accepted);
    case Resize(_) =>
  }

  /** What step `i` hands out. */
  function OutAt(lines: seq<Line>, ops: seq<Op>, i: nat): Option<Pdu>
    requires i < |ops| < |lines| && Counted(lines[i].r)
  {
    if ops[i].Get? then Dequeue(lines[i].r, ops[i].budget, ops[i].x, 0).1 else None
  }

  /** The PDU is, read back to its end, the packet from `from` to `to`, as number `i` of `total`. */
  predicate Reads(pdu: Pdu, p: Packet, total: nat, i: nat, from: nat, to: nat) {
    && from <= to <= |p.data| && |pdu.bytes| == HEADER_SIZE + (to - from)
    && var s := Deserialize(pdu.bytes);
       && s.header.packetId == p.id && s.header.queueId == p.queueId && s.header.priority == p.priority
       && s.header.number == i && s.header.total == total && s.header.originalSize == |p.data|
       && s.header.poll == pdu.poll && (s.header.last <==> i == total - 1)
       && (total > 1 ==> s.header.offset == from)
       && s.data == p.data[from..to] && s.header.segmentSize == to - from
  }

  /** The PDU is the packet, or one of its pieces as the 16-bit count has them, the last of which alone may poll. */
  ghost predicate ReadsAsPiece(pdu: Pdu, p: Packet) {
    exists max: nat, i: nat ::
      && 0 < max && i < Total(|p.data|, max) && i * max <= |p.data|
      && Reads(pdu, p, Total(|p.data|, max), i, i * max, PieceEnd(|p.data|, max, i))
      && (pdu.poll ==> i == Total(|p.data|, max) - 1)
  }

  /** The size fields take the packet's size and that of the PDU's payload. */
  predicate SizesFit(pdu: Pdu, p: Packet) {
    |p.data| < U32 && |pdu.bytes| < HEADER_SIZE + U16
  }

  lemma {:induction false} FieldBound(s: seq<Byte>)
    ensures FromBigEndian(s) < Pow256(|s|)
  {
    if s != [] {
      FieldBound(s[..|s| - 1]);
    }
  }

  lemma ReadsNeedsSizes(pdu: Pdu, p: Packet)
    requires ReadsAsPiece(pdu, p)
    ensures SizesFit(pdu, p)
  {
    Width2();
    Width4();
    FieldBound(pdu.bytes[8..12]);
    FieldBound(pdu.bytes[12..14]);
  }

  lemma WholeReads(pdu: Pdu, s: Segment, p: Packet)
    requires IsWhole(s, p) && pdu.bytes == Serialize(s) && pdu.poll == s.header.poll
    requires 0 < |p.data| < U16 && p.id < SEQ_NUM_MASK
    ensures ReadsAsPiece(pdu, p)
  {
    var n := |p.data|;
    WholeBytes(s);
    CountZero(n, n);
    PieceInside(n, n, 0);
    OnePiece(n);
    assert p.data[0..n] == p.data;
    assert Reads(pdu, p, 1, 0, 0, n);
    WholePiece(pdu, p, n);
  }

  lemma WholePiece(pdu: Pdu, p: Packet, n: nat)
    requires n == |p.data| > 0 && Reads(pdu, p, 1, 0, 0, n)
    ensures ReadsAsPiece(pdu, p)
  {
    OnePiece(n);
    var i := 0;
    assert i * n == 0 && PieceEnd(n, n, i) == n;
    assert Reads(pdu, p, Total(n, n), i, i * n, PieceEnd(n, n, i));
  }

  lemma OnePiece(n: nat)
    requires n > 0
    ensures Total(n, n) == Count(n, n) == 1
  {
    DivBounds(n + n - 1, n);
    if Count(n, n) >= 2 {
      MulMonotone(2, Count(n, n), n);
    }
    CountZero(n, n);
  }

  /** Whatever the offset, the other fields and the data come back. */
  lemma WholeBytes(s: Segment)
    requires s.header.packetId < U32 && s.header.number < U16 && s.header.total < U16 && s.header.originalSize < U32
    requires s.header.segmentSize == |s.data| < U16
    ensures var t := Deserialize(Serialize(s)); t.(header := t.header.(offset := s.header.offset)) == s
  {
    var h, o := s.header, s.header.offset % U32;
    LowBytes(s.header.offset);
    var s' := s.(header := h.(offset := o));
    assert Serialize(s) == Serialize(s');
    SegmentRoundTrip(s');
  }

  /** Four bytes hold a number modulo 2^32. */
  lemma LowBytes(n: nat)
    ensures BigEndian(n, 4) == BigEndian(n % U32, 4)
  {
    Width4();
    SameBytes(n, n % U32, 4);
  }

  lemma {:induction false} SameBytes(n: nat, m: nat, k: nat)
    requires m == n % Pow256(k)
    ensures BigEndian(n, k) == BigEndian(m, k)
  {
    if k > 0 {
      var w := Pow256(k - 1);
      DivMod(n, w);
      SameBytes(n / 256, m / 256, k - 1);
    }
  }

  lemma DivMod(n: nat, w: nat)
    requires w > 0
    ensures n % (256 * w) / 256 == n / 256 % w && n % (256 * w) % 256 == n % 256
  {
    var q, r := n / 256, n % 256;
    assert n == 256 * q + r;
    var a, b := q / w, q % w;
    assert q == a * w + b;
    Unique(n, 256 * w, a, 256 * b + r);
  }

  lemma Unique(n: nat, d: nat, q: nat, r: nat)
    requires d > 0 && n == q * d + r && r < d
    ensures n % d == r
  {
    DivBounds(n, d);
    if n / d > q {
      MulMonotone(q + 1, n / d, d);
    } else if n / d < q {
      MulMonotone(n / d + 1, q, d);
    }
  }

  lemma PieceFields(s: Segment, p: Packet, max: nat, i: nat)
    requires IsPiece(s, p, max, i) && |p.data| < U32 && |s.data| < U16
    ensures i * max <= PieceEnd(|p.data|, max, i) <= |p.data|
    ensures s.data == p.data[i * max..PieceEnd(|p.data|, max, i)]
    ensures s.header.offset == i * max && s.header.segmentSize == |s.data|
    ensures s.header.number == i && s.header.originalSize == |p.data| && s.header.packetId == p.id
    ensures s.header.total == Total(|p.data|, max) && s.header.queueId == p.queueId && s.header.priority == p.priority
    ensures s.header.last <==> i == Total(|p.data|, max) - 1
  {
    PieceInside(|p.data|, max, i);
  }

  lemma PieceReads(pdu: Pdu, s: Segment, p: Packet, max: nat, i: nat)
    requires IsPiece(s, p, max, i) && pdu.bytes == Serialize(s) && pdu.poll == s.header.poll
    requires SizesFit(pdu, p) && p.id < SEQ_NUM_MASK
    ensures ReadsAsPiece(pdu, p)
  {
    PieceFields(s, p, max, i);
    assert Deserialize(pdu.bytes) == s by {
      SegmentRoundTrip(s);
    }
    var from, to := i * max, PieceEnd(|p.data|, max, i);
    assert Reads(pdu, p, Total(|p.data|, max), i, from, to);
  }

  lemma GenuineReads(pdu: Pdu, accepted: seq<Packet>) returns (p: Packet)
    requires Genuine(pdu, accepted)
    requires forall q :: q in accepted ==> 0 < |q.data| && q.id < SEQ_NUM_MASK
    ensures p in accepted && (ReadsAsPiece(pdu, p) <==> SizesFit(pdu, p))
  {
    var s: Segment :| pdu.bytes == Serialize(s) && pdu.poll == s.header.poll
                      && (PieceOf(s, accepted) || WholeOf(s, accepted));
    if PieceOf(s, accepted) {
      var q, max, i :| q in accepted && IsPiece(s, q, max, i);
      p := q;
      if SizesFit(pdu, p) {
        PieceReads(pdu, s, p, max, i);
      }
    } else {
      p :| p in accepted && IsWhole(s, p);
      if SizesFit(pdu, p) {
        WholeReads(pdu, s, p);
      }
    }
    if ReadsAsPiece(pdu, p) {
      ReadsNeedsSizes(pdu, p);
    }
  }

  /** Accepted packets are numbered from 1 in 12 bits. */
  lemma {:induction false} AcceptedIds(lines: seq<Line>, ops: seq<Op>, i: nat)
    requires i <= |ops| < |lines|
    ensures forall j :: 0 <= j < |AcceptedPackets(lines, ops, i)| ==>
              var p := AcceptedPackets(lines, ops, i)[j];
              p.id == (j + 1) % U32 % SEQ_NUM_MASK && |p.data| >= IPV4_HEADER
  {
    if i > 0 {
      AcceptedIds(lines, ops, i - 1);
    }
  }

  /**
   In every run, each PDU handed out comes from a packet that was accepted before, and reads back as that packet or one
   of its pieces if and only if the size fields take the sizes: with the packet's id, queue, priority and size, the
   piece's number, offset and bytes, and a poll flag on a last piece at most.
  */
  lemma EveryPduIsAPiece(lines: seq<Line>, ops: seq<Op>, bufferSize: nat, poll: bool, i: nat) returns (p: Packet)
    requires UsableSize(bufferSize) && IsRun(lines, ops, bufferSize, poll) && i < |ops| && OutAt(lines, ops, i).Some?
    ensures p in AcceptedPackets(lines, ops, i)
    ensures ReadsAsPiece(OutAt(lines, ops, i).value, p) <==> SizesFit(OutAt(lines, ops, i).value, p)
  {
    var accepted := AcceptedPackets(lines, ops, i);
    RunOrigin(lines, ops, bufferSize, poll, i);
    RunKeeps(lines, ops, bufferSize, poll, i);
    DequeueOrigin(lines[i].r, ops[i].budget, ops[i].x, accepted);
    AcceptedIds(lines, ops, i);
    forall q | q in accepted ensures 0 < |q.data| && q.id < SEQ_NUM_MASK {
      var j :| 0 <= j < |accepted| && accepted[j] == q;
    }
    p := GenuineReads(OutAt(lines, ops, i).value, accepted);
  }

  // ---------------------------------------------------------------------------------------------
  // The poll flag
  // ---------------------------------------------------------------------------------------------

  /** A PDU goes out with the poll if it is a last piece and one is pending, or was put on it when it was cut. */
  lemma PollOfSegment(r: Rlc, budget: nat, x: Input)
    requires RlcInv(r) && r.segments != [] && Dequeue(r, budget, x, 0).1.Some?
    ensures var pending, s, (r', out) := r.pollPending || x.expired(0), r.segments[0], Dequeue(r, budget, x, 0);
            && out.value.poll == (s.header.poll || (pending && s.header.last))
            && r'.pollPending == (pending && !s.header.last)
  {
    var r0 := CheckPollTimer(r, x.expired(0));
    DequeueUnfolds(r, r0, budget, x, 0);
    FrontBytes(r0);
  }

  /** A packet that goes out whole takes a pending poll along. */
  lemma PollOfWhole(r: Rlc, budget: nat, x: Input)
    requires RlcInv(r) && Choose(r, budget).Whole?
    ensures var pending, (r', out) := r.pollPending || x.expired(0), Dequeue(r, budget, x, 0);
            out.Some? && out.value.poll == pending && !r'.pollPending
  {
    var r0 := CheckPollTimer(r, x.expired(0));
    TimerKeepsChoice(r, x.expired(0), budget);
    DequeueUnfolds(r, r0, budget, x, 0);
  }

  lemma AllAdmitted(r: Rlc, budget: nat)
    requires RlcInv(r) && Choose(r, budget).Cutting? && CutFits(r, budget)
    ensures CutOut(r, budget).segments == FrontSegments(r, budget)
    ensures |FrontSegments(r, budget)| == Needed(r, budget) > 0
    ensures Total(|r.packets[0].data|, MaxPayload(r, budget)) == Needed(r, budget)
  {
    var all := FrontSegments(r, budget);
    CutBuffers(r, budget);
    FrontSegmentsTile(r, budget);
    AdmittedCount(all, r.capacity);
    forall s | s in all ensures |s.data| > 0 {
      FrontSegmentsFit(r, budget, s);
    }
    AdmittedBytes(all, 0, r.capacity);
    CountZero(|r.packets[0].data|, MaxPayload(r, budget));
    assert r.packets[0] in r.packets;
    TotalIs(|r.packets[0].data|, MaxPayload(r, budget));
  }
}
