/**
 The RLC sender of one queue: packets wait in `packets`, cut pieces in `segments`, and `dequeuePacket` hands out at
 most what fits a byte budget. `Rlc` is the state as a value; the functions on it specify the class.
*/
module RlcSender {
  import opened Options
  import opened Bytes
  import opened RlcSegmentation
  import SpscCapacity

  const IPV4_HEADER := 20
  const SEQ_NUM_MASK := 4096

  datatype Packet = Packet(data: seq<Byte>, id: nat, queueId: Byte, priority: Byte)

  datatype Rlc = Rlc(
    packets: seq<Packet>, segments: seq<Segment>, bufferSize: nat, capacity: nat, maxSegment: nat, nextId: nat,
    pollPending: bool, dropped: nat, buffered: nat, dequeued: nat, created: nat, segmentsDequeued: nat,
    packetBytes: nat, segmentBytes: nat)

  /** What `dequeuePacket` returns: the bytes with their header, and the poll flag. */
  datatype Pdu = Pdu(bytes: seq<Byte>, poll: bool)

  /** `expired(d)` is the poll timer at recursion depth `d`, `junk` the offset, not set when a whole packet is sent. */
  datatype Input = Input(expired: nat -> bool, junk: nat)

  /** `MAX_BLOCK_SIZE` of the queues. */
  const BLOCK_SIZE := 512

  /**
   What the segment buffer takes when it is empty. It is built for four times the buffer size, a 32-bit product, and
   only `dequeuePacket` uses it.
  */
  function SegmentCapacity(bufferSize: nat): nat {
    SpscCapacity.Capacity(4 * bufferSize % U32, BLOCK_SIZE)
  }

  function Initial(bufferSize: nat, poll: bool): Rlc {
    Rlc([], [], bufferSize, SegmentCapacity(bufferSize), 1500, 1, poll, 0, 0, 0, 0, 0, 0, 0)
  }

  /** `setMaxSegmentSize`: sizes up to 100 are ignored. */
  function SetMaxSegment(r: Rlc, size: nat): Rlc {
    if size > 100 then r.(maxSegment := size) else r
  }

  function Inc(n: nat): nat {
    (n + 1) % U32
  }

  /** A 32-bit counter after `k` increments. */
  function Bump(n: nat, k: nat): nat {
    if k == 0 then n else Inc(Bump(n, k - 1))
  }

  // ---------------------------------------------------------------------------------------------
  // enqueuePacket
  // ---------------------------------------------------------------------------------------------

  function Enqueue(r: Rlc, data: seq<Byte>, queueId: Byte, priority: Byte, room: bool): (Rlc, bool) {
    if |data| < IPV4_HEADER then (r, false)
    else if |r.packets| >= r.bufferSize && !room then (r.(dropped := Inc(r.dropped)), false)
    else
      (r.(packets := r.packets + [Packet(data, r.nextId % SEQ_NUM_MASK, queueId, priority)],
          nextId := Inc(r.nextId), buffered := Inc(r.buffered), packetBytes := r.packetBytes + |data|),
       true)
  }

  // ---------------------------------------------------------------------------------------------
  // dequeuePacket
  // ---------------------------------------------------------------------------------------------

  /** Hand out the front segment; a pending poll goes on a last segment. */
  function TakeSegment(r: Rlc): (Rlc, Pdu)
    requires r.segments != [] && r.segmentBytes >= |r.segments[0].data|
  {
    var s := r.segments[0];
    var sets := r.pollPending && s.header.last;
    var s' := s.(header := s.header.(poll := s.header.poll || sets));
    (r.(segments := r.segments[1..], segmentsDequeued := Inc(r.segmentsDequeued),
        segmentBytes := r.segmentBytes - |s.data|, pollPending := r.pollPending && !sets),
     Pdu(Serialize(s'), s'.header.poll))
  }

  function WholePacket(p: Packet, poll: bool, junk: nat): Segment {
    Segment(Header(p.id, 0, 1, |p.data| % U32, |p.data| % U16, true, poll, junk, p.queueId, p.priority), p.data)
  }

  function DropFront(r: Rlc): Rlc
    requires r.packets != [] && r.packetBytes >= |r.packets[0].data|
  {
    r.(packets := r.packets[1..], dequeued := Inc(r.dequeued), packetBytes := r.packetBytes - |r.packets[0].data|,
       pollPending := false)
  }

  /** A pending poll goes on the last segment; queue and priority are those of the packet. */
  function Stamped(segments: seq<Segment>, poll: bool, p: Packet): (res: seq<Segment>)
    ensures |res| == |segments|
    ensures forall i :: 0 <= i < |res| ==>
              res[i] == Stamp(segments[i], poll && segments[i].header.last, p.queueId, p.priority)
  {
    if segments == [] then []
    else
      var k := |segments| - 1;
      Stamped(segments[..k], poll, p)
      + [Stamp(segments[k], poll && segments[k].header.last, p.queueId, p.priority)]
  }

  /** The segments the segment buffer takes when `held` are in it. */
  function Admitted(segments: seq<Segment>, held: nat, capacity: nat): (res: seq<Segment>)
    ensures |res| <= |segments|
  {
    if segments == [] then []
    else
      var k := |segments| - 1;
      var before := Admitted(segments[..k], held, capacity);
      if held + |before| < capacity then before + [segments[k]] else before
  }

  function Effective(r: Rlc, budget: nat): nat {
    if r.maxSegment < budget then r.maxSegment else budget
  }

  /** The front packet's segments, ready to be queued. */
  function FrontSegments(r: Rlc, budget: nat): seq<Segment>
    requires r.packets != []
  {
    var p := r.packets[0];
    Stamped(SegmentsOf(p.data, Effective(r, budget), p.id), r.pollPending, p)
  }

  /** Cut the front packet and queue what the segment buffer takes. */
  function Split(r: Rlc, budget: nat): Rlc
    requires r.packets != [] && r.packetBytes >= |r.packets[0].data|
  {
    var taken := Admitted(FrontSegments(r, budget), |r.segments|, r.capacity);
    DropFront(r).(segments := r.segments + taken, created := Bump(r.created, |taken|),
                  segmentBytes := r.segmentBytes + |Join(taken)|)
  }

  /** The byte counters cover what is in the buffers. */
  predicate Counted(r: Rlc) {
    r.packetBytes == |PacketBytes(r.packets)| && r.segmentBytes == |Join(r.segments)|
  }

  function PacketBytes(packets: seq<Packet>): seq<Byte> {
    if packets == [] then [] else PacketBytes(packets[..|packets| - 1]) + packets[|packets| - 1].data
  }

  datatype Choice = Nothing | Front | Whole | Cutting

  /** Which branch `dequeuePacket` takes. */
  function Choose(r: Rlc, budget: nat): Choice {
    if r.segments != [] then
      (if HEADER_SIZE + |r.segments[0].data| <= budget then Front else Nothing)
    else if r.packets == [] then Nothing
    else if |r.packets[0].data| + 16 <= budget then Whole
    else if Effective(r, budget) < 100 then Nothing
    else if SegmentsOf(r.packets[0].data, Effective(r, budget), r.packets[0].id) == [] then Nothing
    else Cutting
  }

  function CheckPollTimer(r: Rlc, expired: bool): Rlc {
    if expired then r.(pollPending := true) else r
  }

  function Dequeue(r: Rlc, budget: nat, x: Input, depth: nat): (res: (Rlc, Option<Pdu>))
    requires Counted(r)
    ensures Counted(res.0)
    decreases |r.packets|
  {
    var r0 := CheckPollTimer(r, x.expired(depth));
    match Choose(r0, budget)
    case Nothing => (r0, None)
    case Front => FrontOut(r0)
    case Whole => WholeOut(r0, x.junk)
    case Cutting => Dequeue(CutOut(r0, budget), budget, x, depth + 1)
  }

  function FrontOut(r: Rlc): (res: (Rlc, Option<Pdu>))
    requires Counted(r) && r.segments != []
    ensures Counted(res.0)
  {
    TakeCounted(r);
    (TakeSegment(r).0, Some(TakeSegment(r).1))
  }

  function WholeOut(r: Rlc, junk: nat): (res: (Rlc, Option<Pdu>))
    requires Counted(r) && r.packets != []
    ensures Counted(res.0)
  {
    DropCounted(r);
    (DropFront(r), Some(Pdu(Serialize(WholePacket(r.packets[0], r.pollPending, junk)), r.pollPending)))
  }

  function CutOut(r: Rlc, budget: nat): (r': Rlc)
    requires Counted(r) && r.packets != []
    ensures Counted(r') && r'.packets == r.packets[1..]
  {
    DropCounted(r);
    SplitCounted(r, budget);
    Split(r, budget)
  }

  // ---------------------------------------------------------------------------------------------
  // Bytes in the buffers
  // ---------------------------------------------------------------------------------------------

  lemma {:induction false} JoinAppend(a: seq<Segment>, b: seq<Segment>)
    ensures Join(a + b) == Join(a) + Join(b)
  {
    if b == [] {
      assert a + b == a;
    } else {
      assert (a + b)[..|a + b| - 1] == a + b[..|b| - 1];
      JoinAppend(a, b[..|b| - 1]);
    }
  }

  lemma JoinFront(segments: seq<Segment>)
    requires segments != []
    ensures Join(segments) == segments[0].data + Join(segments[1..])
  {
    assert segments == segments[..1] + segments[1..];
    JoinAppend(segments[..1], segments[1..]);
    assert segments[..1][..0] == [];
  }

  lemma {:induction false} PacketBytesFront(packets: seq<Packet>)
    requires packets != []
    ensures PacketBytes(packets) == packets[0].data + PacketBytes(packets[1..])
  {
    var k := |packets| - 1;
    if k == 0 {
      assert packets[..0] == [] && packets[1..] == [];
    } else {
      var init, tail, last := packets[..k], packets[1..], packets[k].data;
      PacketBytesFront(init);
      assert init[1..] == tail[..k - 1] && tail[k - 1] == packets[k];
      assert PacketBytes(tail) == PacketBytes(init[1..]) + last;
      assert PacketBytes(packets) == (packets[0].data + PacketBytes(init[1..])) + last;
    }
  }

  lemma TakeCounted(r: Rlc)
    requires Counted(r) && r.segments != []
    ensures r.segmentBytes >= |r.segments[0].data|
    ensures Counted(TakeSegment(r).0)
  {
    JoinFront(r.segments);
  }

  lemma DropCounted(r: Rlc)
    requires Counted(r) && r.packets != []
    ensures r.packetBytes >= |r.packets[0].data|
    ensures Counted(DropFront(r))
  {
    PacketBytesFront(r.packets);
  }

  lemma SplitCounted(r: Rlc, budget: nat)
    requires Counted(r) && r.packets != [] && r.packetBytes >= |r.packets[0].data|
    ensures Counted(Split(r, budget))
  {
    DropCounted(r);
    JoinAppend(r.segments, Admitted(FrontSegments(r, budget), |r.segments|, r.capacity));
  }

  // ---------------------------------------------------------------------------------------------
  // Steps of the loops
  // ---------------------------------------------------------------------------------------------

  lemma AdmittedStep(all: seq<Segment>, i: nat, held: nat, capacity: nat)
    requires i < |all|
    ensures var taken := Admitted(all[..i], held, capacity);
            Admitted(all[..i + 1], held, capacity) ==
            if held + |taken| < capacity then taken + [all[i]] else taken
  {
    assert all[..i + 1][..i] == all[..i];
  }

  lemma JoinStep(segments: seq<Segment>, s: Segment)
    ensures Join(segments + [s]) == Join(segments) + s.data
  {
    assert (segments + [s])[..|segments|] == segments;
  }

  /** `CutOut`, field by field. */
  lemma CutParts(r: Rlc, r': Rlc, budget: nat, taken: seq<Segment>)
    requires Counted(r) && r.packets != []
    requires taken == Admitted(FrontSegments(r, budget), |r.segments|, r.capacity)
    requires r'.packets == r.packets[1..] && r'.segments == r.segments + taken
    requires r'.packetBytes == r.packetBytes - |r.packets[0].data|
    requires r'.segmentBytes == r.segmentBytes + |Join(taken)|
    requires r'.bufferSize == r.bufferSize && r'.capacity == r.capacity
    requires r'.maxSegment == r.maxSegment && r'.nextId == r.nextId
    requires !r'.pollPending && r'.dropped == r.dropped && r'.buffered == r.buffered
    requires r'.dequeued == Inc(r.dequeued) && r'.created == Bump(r.created, |taken|)
    requires r'.segmentsDequeued == r.segmentsDequeued
    ensures r' == CutOut(r, budget)
  {
  }

  /** One call of `dequeuePacket`, after its timer check. */
  lemma DequeueUnfolds(r: Rlc, r0: Rlc, budget: nat, x: Input, depth: nat)
    requires Counted(r) && r0 == CheckPollTimer(r, x.expired(depth))
    ensures Counted(r0)
    ensures Choose(r0, budget).Nothing? ==> Dequeue(r, budget, x, depth) == (r0, None)
    ensures Choose(r0, budget).Front? ==> Dequeue(r, budget, x, depth) == FrontOut(r0)
    ensures Choose(r0, budget).Whole? ==> Dequeue(r, budget, x, depth) == WholeOut(r0, x.junk)
    ensures Choose(r0, budget).Cutting? ==>
              Dequeue(r, budget, x, depth) == Dequeue(CutOut(r0, budget), budget, x, depth + 1)
  {
  }

  // ---------------------------------------------------------------------------------------------
  // The class
  // ---------------------------------------------------------------------------------------------

  class RlcSender {
    var packets: seq<Packet>
    var segments: seq<Segment>
    const bufferSize: nat
    const capacity: nat
    var maxSegment: nat
    var nextId: nat
    var pollPending: bool
    var dropped: nat
    var buffered: nat
    var dequeued: nat
    var created: nat
    var segmentsDequeued: nat
    var packetBytes: nat
    var segmentBytes: nat

    ghost function State(): Rlc
      reads this
    {
      Rlc(packets, segments, bufferSize, capacity, maxSegment, nextId, pollPending, dropped, buffered, dequeued,
          created, segmentsDequeued, packetBytes, segmentBytes)
    }

    /** The source leaves the poll flag unset here, so that it is an input. */
    constructor (size: nat, poll: bool)
      ensures State() == Initial(size, poll)
    {
      packets, segments, bufferSize, maxSegment, nextId := [], [], size, 1500, 1;
      capacity := SegmentCapacity(size);
      pollPending := poll;
      dropped, buffered, dequeued, created, segmentsDequeued := 0, 0, 0, 0, 0;
      packetBytes, segmentBytes := 0, 0;
    }

    method SetMaxSegmentSize(size: nat)
      modifies this`maxSegment
      ensures State() == SetMaxSegment(old(State()), size)
    {
      if size > 100 {
        maxSegment := size;
      }
    }

    method EnqueuePacket(data: seq<Byte>, queueId: Byte, priority: Byte, room: bool) returns (ok: bool)
      modifies this
      ensures (State(), ok) == Enqueue(old(State()), data, queueId, priority, room)
    {
      if |data| < IPV4_HEADER {
        return false;
      }
      if |packets| >= bufferSize && !room {
        dropped := Inc(dropped);
        return false;
      }
      packets := packets + [Packet(data, nextId % SEQ_NUM_MASK, queueId, priority)];
      nextId := Inc(nextId);
      buffered := Inc(buffered);
      packetBytes := packetBytes + |data|;
      return true;
    }

    method TakeFrontSegment() returns (pdu: Pdu)
      requires Counted(State()) && segments != []
      modifies this`segments, this`segmentsDequeued, this`segmentBytes, this`pollPending
      ensures (State(), Some(pdu)) == FrontOut(old(State()))
    {
      TakeCounted(State());
      var s := segments[0];
      segments := segments[1..];
      segmentsDequeued := Inc(segmentsDequeued);
      segmentBytes := segmentBytes - |s.data|;
      if pollPending && s.header.last {
        s := s.(header := s.header.(poll := true));
        pollPending := false;
      }
      return Pdu(Serialize(s), s.header.poll);
    }

    method TakeWholePacket(junk: nat) returns (pdu: Pdu)
      requires Counted(State()) && packets != []
      modifies this`packets, this`dequeued, this`packetBytes, this`pollPending
      ensures (State(), Some(pdu)) == WholeOut(old(State()), junk)
    {
      DropCounted(State());
      var p := packets[0];
      packets := packets[1..];
      dequeued := Inc(dequeued);
      packetBytes := packetBytes - |p.data|;
      var setPoll := false;
      if pollPending {
        setPoll := true;
        pollPending := false;
      }
      return Pdu(Serialize(WholePacket(p, setPoll, junk)), setPoll);
    }

    method QueueSegment(s: Segment) returns (ok: bool)
      modifies this`segments, this`created, this`segmentBytes
      ensures ok <==> |old(segments)| < capacity
      ensures segments == if ok then old(segments) + [s] else old(segments)
      ensures created == if ok then Inc(old(created)) else old(created)
      ensures segmentBytes == old(segmentBytes) + if ok then |s.data| else 0
    {
      ok := |segments| < capacity;
      if ok {
        segments := segments + [s];
        created := Inc(created);
        segmentBytes := segmentBytes + |s.data|;
      }
    }

    /** The loop over the new segments; a refused segment is dropped and the loop goes on. */
    method QueueSegments(all: seq<Segment>) returns (ghost taken: seq<Segment>)
      modifies this`segments, this`created, this`segmentBytes
      ensures taken == Admitted(all, |old(segments)|, capacity)
      ensures segments == old(segments) + taken
      ensures created == Bump(old(created), |taken|)
      ensures segmentBytes == old(segmentBytes) + |Join(taken)|
    {
      taken := [];
      for i := 0 to |all|
        invariant taken == Admitted(all[..i], |old(segments)|, capacity)
        invariant segments == old(segments) + taken
        invariant created == Bump(old(created), |taken|)
        invariant segmentBytes == old(segmentBytes) + |Join(taken)|
      {
        var ok := QueueSegment(all[i]);
        AdmittedStep(all, i, |old(segments)|, capacity);
        if ok {
          JoinStep(taken, all[i]);
          taken := taken + [all[i]];
        }
      }
      assert all[..|all|] == all;
    }

    /** Cut the front packet and replace it by its segments. */
    method CutFrontPacket(all: seq<Segment>, budget: nat)
      requires Counted(State()) && packets != []
      requires all == SegmentsOf(packets[0].data, Effective(State(), budget), packets[0].id)
      modifies this
      ensures State() == CutOut(old(State()), budget)
    {
      ghost var r := State();
      DropCounted(r);
      var p := packets[0];
      var setPoll := pollPending;
      var bytesLeft := packetBytes - |p.data|;
      pollPending := false;
      var stamped := StampAll(all, setPoll, p);
      assert stamped == FrontSegments(r, budget);
      ghost var taken := QueueSegments(stamped);
      packets := packets[1..];
      dequeued := Inc(dequeued);
      packetBytes := bytesLeft;
      CutParts(r, State(), budget, taken);
    }

    method StampAll(all: seq<Segment>, poll: bool, p: Packet) returns (res: seq<Segment>)
      ensures res == Stamped(all, poll, p)
    {
      res := [];
      for i := 0 to |all|
        invariant res == Stamped(all[..i], poll, p)
      {
        assert all[..i + 1][..i] == all[..i];
        res := res + [Stamp(all[i], poll && all[i].header.last, p.queueId, p.priority)];
      }
      assert all[..|all|] == all;
    }

    method DequeuePacket(budget: nat, x: Input, depth: nat) returns (out: Option<Pdu>)
      requires Counted(State())
      modifies this
      ensures State() == Dequeue(old(State()), budget, x, depth).0
      ensures out == Dequeue(old(State()), budget, x, depth).1
      decreases |packets|
    {
      if x.expired(depth) {
        pollPending := true;
      }
      DequeueUnfolds(old(State()), State(), budget, x, depth);
      if segments != [] {
        if HEADER_SIZE + |segments[0].data| <= budget {
          var pdu := TakeFrontSegment();
          return Some(pdu);
        }
        return None;
      }
      if packets == [] {
        return None;
      }
      if |packets[0].data| + 16 <= budget {
        var pdu := TakeWholePacket(x.junk);
        return Some(pdu);
      }
      var effective := if maxSegment < budget then maxSegment else budget;
      if effective < 100 {
        return None;
      }
      var all := SegmentPacket(packets[0].data, effective, packets[0].id);
      if all == [] {
        return None;
      }
      CutFrontPacket(all, budget);
      out := DequeuePacket(budget, x, depth + 1);
    }
  }
}
