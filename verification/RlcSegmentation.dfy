/** RLC segments: cutting a packet, the 22-byte segment header, and writing pieces at their offsets. */
module RlcSegmentation {
  import opened Bytes

  const HEADER_SIZE := 22
  const U16 := 0x1_0000
  const U32 := 0x1_0000_0000

  datatype Header = Header(
    packetId: nat, number: nat, total: nat, originalSize: nat, segmentSize: nat,
    last: bool, poll: bool, offset: nat, queueId: Byte, priority: Byte)

  datatype Segment = Segment(header: Header, data: seq<Byte>)

  // ---------------------------------------------------------------------------------------------
  // The header
  // ---------------------------------------------------------------------------------------------

  predicate Fits(h: Header) {
    && h.packetId < U32 && h.originalSize < U32 && h.offset < U32
    && h.number < U16 && h.total < U16 && h.segmentSize < U16
  }

  function Flag(b: bool): Byte {
    if b then 1 else 0
  }

  function Encode(h: Header): (s: seq<Byte>)
    ensures |s| == HEADER_SIZE
  {
    BigEndian(h.packetId, 4) + BigEndian(h.number, 2) + BigEndian(h.total, 2) + BigEndian(h.originalSize, 4)
    + BigEndian(h.segmentSize, 2) + [Flag(h.last), Flag(h.poll)] + BigEndian(h.offset, 4) + [h.queueId, h.priority]
  }

  function Decode(s: seq<Byte>): Header
    requires |s| >= HEADER_SIZE
  {
    Header(FromBigEndian(s[0..4]), FromBigEndian(s[4..6]), FromBigEndian(s[6..8]), FromBigEndian(s[8..12]),
           FromBigEndian(s[12..14]), s[14] == 1, s[15] == 1, FromBigEndian(s[16..20]), s[20], s[21])
  }

  lemma Layout(a: seq<Byte>, b: seq<Byte>, c: seq<Byte>, d: seq<Byte>, e: seq<Byte>, f: seq<Byte>,
               g: seq<Byte>, h: seq<Byte>, rest: seq<Byte>)
    requires |a| == |d| == |g| == 4 && |b| == |c| == |e| == |f| == |h| == 2
    ensures var s := a + b + c + d + e + f + g + h + rest;
            && s[0..4] == a && s[4..6] == b && s[6..8] == c && s[8..12] == d && s[12..14] == e
            && s[14..16] == f && s[16..20] == g && s[20..22] == h && s[22..] == rest
  {
  }

  lemma HeaderRoundTrip(h: Header, rest: seq<Byte>)
    requires Fits(h)
    ensures Decode(Encode(h) + rest) == h
    ensures (Encode(h) + rest)[HEADER_SIZE..] == rest
  {
    Width2();
    Width4();
    BigEndianRoundTrip(h.packetId, 4);
    BigEndianRoundTrip(h.number, 2);
    BigEndianRoundTrip(h.total, 2);
    BigEndianRoundTrip(h.originalSize, 4);
    BigEndianRoundTrip(h.segmentSize, 2);
    BigEndianRoundTrip(h.offset, 4);
    var f, k := [Flag(h.last), Flag(h.poll)], [h.queueId, h.priority];
    Layout(BigEndian(h.packetId, 4), BigEndian(h.number, 2), BigEndian(h.total, 2), BigEndian(h.originalSize, 4),
           BigEndian(h.segmentSize, 2), f, BigEndian(h.offset, 4), k, rest);
    var s := Encode(h) + rest;
    assert s[14] == s[14..16][0] && s[15] == s[14..16][1] && s[20] == s[20..22][0] && s[21] == s[20..22][1];
  }

  /** `memcpy` of `bytes` to position `at`: what is before and after stays. */
  method CopyTo(buf: array<Byte>, at: nat, bytes: seq<Byte>)
    requires at + |bytes| <= buf.Length
    modifies buf
    ensures buf[..at + |bytes|] == old(buf[..at]) + bytes
    ensures buf[at + |bytes|..] == old(buf[at + |bytes|..])
  {
    for i := 0 to |bytes|
      invariant buf[..at + i] == old(buf[..at]) + bytes[..i]
      invariant buf[at + i..] == old(buf[at + i..])
    {
      ghost var before := buf[..];
      buf[at + i] := bytes[i];
      assert buf[..at + i + 1] == before[..at + i] + [bytes[i]];
      assert buf[at + i + 1..] == before[at + i + 1..];
    }
    assert bytes[..|bytes|] == bytes;
  }

  /** Field after field is copied to its place. */
  method SerializeHeader(h: Header) returns (buf: array<Byte>)
    ensures fresh(buf) && buf[..] == Encode(h)
  {
    buf := new Byte[HEADER_SIZE](i => 0);
    assert buf[..0] == [];
    ghost var done := [];
    CopyTo(buf, 0, BigEndian(h.packetId, 4));
    done := BigEndian(h.packetId, 4);
    assert buf[..4] == done;
    CopyTo(buf, 4, BigEndian(h.number, 2));
    done := done + BigEndian(h.number, 2);
    assert buf[..6] == done;
    CopyTo(buf, 6, BigEndian(h.total, 2));
    done := done + BigEndian(h.total, 2);
    assert buf[..8] == done;
    CopyTo(buf, 8, BigEndian(h.originalSize, 4));
    done := done + BigEndian(h.originalSize, 4);
    assert buf[..12] == done;
    CopyTo(buf, 12, BigEndian(h.segmentSize, 2));
    done := done + BigEndian(h.segmentSize, 2);
    assert buf[..14] == done;
    CopyTo(buf, 14, [Flag(h.last), Flag(h.poll)]);
    done := done + [Flag(h.last), Flag(h.poll)];
    assert buf[..16] == done;
    CopyTo(buf, 16, BigEndian(h.offset, 4));
    done := done + BigEndian(h.offset, 4);
    assert buf[..20] == done;
    CopyTo(buf, 20, [h.queueId, h.priority]);
    assert buf[..] == buf[..22];
  }

  // ---------------------------------------------------------------------------------------------
  // Segments on the wire
  // ---------------------------------------------------------------------------------------------

  function Serialize(s: Segment): (bytes: seq<Byte>)
    ensures |bytes| == HEADER_SIZE + |s.data|
  {
    Encode(s.header) + s.data
  }

  /** A buffer too small for a header yields no segment; the data is cut to the announced size. */
  function Deserialize(bytes: seq<Byte>): Segment
    requires |bytes| >= HEADER_SIZE
  {
    var h := Decode(bytes);
    var payloadLen := |bytes| - HEADER_SIZE;
    var size := if payloadLen < h.segmentSize then payloadLen else h.segmentSize;
    Segment(h, bytes[HEADER_SIZE..HEADER_SIZE + size])
  }

  lemma SegmentRoundTrip(s: Segment)
    requires Fits(s.header) && s.header.segmentSize == |s.data|
    ensures Deserialize(Serialize(s)) == s
  {
    HeaderRoundTrip(s.header, s.data);
    var bytes := Serialize(s);
    assert bytes[HEADER_SIZE..HEADER_SIZE + |s.data|] == bytes[HEADER_SIZE..];
  }

  // ---------------------------------------------------------------------------------------------
  // Cutting a packet
  // ---------------------------------------------------------------------------------------------

  /** Least number of pieces of at most `max` bytes. */
  function Count(len: nat, max: nat): nat
    requires max > 0
  {
    (len + max - 1) / max
  }

  lemma DivBounds(a: nat, d: nat)
    requires d > 0
    ensures a / d * d <= a < (a / d + 1) * d
  {
  }

  lemma MulMonotone(a: nat, b: nat, d: nat)
    requires a <= b
    ensures a * d <= b * d
  {
  }

  /** Piece `i` starts inside the packet, and only the last one is cut short. */
  lemma PieceInside(len: nat, max: nat, i: nat)
    requires max > 0 && i < Count(len, max)
    ensures i * max < len
    ensures i + 1 < Count(len, max) ==> i * max + max < len
    ensures i + 1 == Count(len, max) ==> len <= i * max + max
    ensures (i + 1) * max == i * max + max
  {
    var c := Count(len, max);
    DivBounds(len + max - 1, max);
    MulMonotone(i + 1, c, max);
    if i + 1 < c {
      MulMonotone(i + 2, c, max);
    }
  }

  function PieceSize(len: nat, max: nat, i: nat): nat
    requires max > 0 && i * max <= len
  {
    if len - i * max > max then max else len - i * max
  }

  function SegmentAt(packet: seq<Byte>, max: nat, id: nat, total: nat, i: nat): Segment
    requires max > 0 && i * max <= |packet|
  {
    var size := PieceSize(|packet|, max, i);
    Segment(Header(id, i, total, |packet| % U32, size % U16, i == total - 1, false, i * max % U32, 0, 0),
            packet[i * max..i * max + size])
  }

  /** The number of segments goes through a 16-bit variable. */
  function Total(len: nat, max: nat): (n: nat)
    requires max > 0
    ensures n <= Count(len, max)
  {
    Count(len, max) % U16
  }

  predicate Cut(segments: seq<Segment>, packet: seq<Byte>, max: nat, id: nat, n: nat) {
    && max > 0 && |segments| == n <= Total(|packet|, max)
    && forall i :: 0 <= i < n ==>
         i * max <= |packet| && segments[i] == SegmentAt(packet, max, id, Total(|packet|, max), i)
  }

  /** The first `n` segments. */
  function CutUp(packet: seq<Byte>, max: nat, id: nat, n: nat): (segments: seq<Segment>)
    requires max > 0 && n <= Total(|packet|, max)
    ensures Cut(segments, packet, max, id, n)
  {
    if n == 0 then []
    else
      PieceInside(|packet|, max, n - 1);
      CutUp(packet, max, id, n - 1) + [SegmentAt(packet, max, id, Total(|packet|, max), n - 1)]
  }

  /** All segments for a size that includes the header. */
  function SegmentsOf(packet: seq<Byte>, maxSegment: nat, id: nat): seq<Segment> {
    if maxSegment <= HEADER_SIZE then []
    else CutUp(packet, maxSegment - HEADER_SIZE, id, Total(|packet|, maxSegment - HEADER_SIZE))
  }

  /** `segmentPacket`. */
  method SegmentPacket(packet: seq<Byte>, maxSegment: nat, id: nat) returns (segments: seq<Segment>)
    ensures segments == SegmentsOf(packet, maxSegment, id)
  {
    var max := if maxSegment > HEADER_SIZE then maxSegment - HEADER_SIZE else 0;
    segments := [];
    if max == 0 {
      return;
    }
    var total := (|packet| + max - 1) / max % U16;
    for i := 0 to total
      invariant segments == CutUp(packet, max, id, i)
    {
      PieceInside(|packet|, max, i);
      var offset := i * max;
      var remaining := |packet| - offset;
      var size := if remaining > max then max else remaining;
      var h := Header(id, i, total, |packet| % U32, size % U16, i == total - 1, false, offset % U32, 0, 0);
      segments := segments + [Segment(h, packet[offset..offset + size])];
    }
  }

  function Join(segments: seq<Segment>): seq<Byte> {
    if segments == [] then [] else Join(segments[..|segments| - 1]) + segments[|segments| - 1].data
  }

  /** Where piece `i` ends. */
  function PieceEnd(len: nat, max: nat, i: nat): nat
    requires max > 0 && i * max <= len
  {
    i * max + PieceSize(len, max, i)
  }

  lemma CutPrefix(segments: seq<Segment>, packet: seq<Byte>, max: nat, id: nat, k: nat)
    requires Cut(segments, packet, max, id, k + 1)
    ensures Cut(segments[..k], packet, max, id, k)
  {
  }

  /** The first `k + 1` pieces are the packet's first bytes. */
  lemma {:induction false} JoinIsPrefix(segments: seq<Segment>, packet: seq<Byte>, max: nat, id: nat, k: nat)
    requires Cut(segments, packet, max, id, k + 1)
    ensures k * max <= |packet|
    ensures PieceEnd(|packet|, max, k) <= |packet|
    ensures Join(segments) == packet[..PieceEnd(|packet|, max, k)]
  {
    PieceInside(|packet|, max, k);
    assert segments[k] == SegmentAt(packet, max, id, Total(|packet|, max), k);
    var start, end := k * max, PieceEnd(|packet|, max, k);
    if k > 0 {
      CutPrefix(segments, packet, max, id, k);
      JoinIsPrefix(segments[..k], packet, max, id, k - 1);
      PieceInside(|packet|, max, k - 1);
      assert Join(segments[..k]) == packet[..start];
    } else {
      assert segments[..0] == [] && packet[..start] == [];
    }
    Extend(packet, start, end);
  }

  lemma Extend(s: seq<Byte>, start: nat, end: nat)
    requires start <= end <= |s|
    ensures s[..start] + s[start..end] == s[..end]
  {
  }

  /**
   The segments make up the packet exactly if their number fits 16 bits; otherwise the end of the packet is lost.
  */
  lemma SegmentsTileIffCountFits(segments: seq<Segment>, packet: seq<Byte>, max: nat, id: nat)
    requires max > 0 && Cut(segments, packet, max, id, Total(|packet|, max))
    ensures Join(segments) == packet <==> Count(|packet|, max) < U16
    ensures Join(segments) != packet ==> |Join(segments)| < |packet|
  {
    var t := Total(|packet|, max);
    CountZero(|packet|, max);
    if t > 0 {
      JoinIsPrefix(segments, packet, max, id, t - 1);
      LastPieceEnd(|packet|, max, t);
      assert packet[..|packet|] == packet;
    }
  }

  lemma CountZero(len: nat, max: nat)
    requires max > 0
    ensures Count(len, max) == 0 <==> len == 0
  {
    DivBounds(len + max - 1, max);
  }

  /** Only the last of all pieces ends where the packet ends. */
  lemma LastPieceEnd(len: nat, max: nat, n: nat)
    requires max > 0 && 0 < n <= Count(len, max)
    ensures (n - 1) * max <= len
    ensures PieceEnd(len, max, n - 1) <= len
    ensures PieceEnd(len, max, n - 1) == len <==> n == Count(len, max)
  {
    PieceInside(len, max, n - 1);
  }

  /** Exactly one segment of a cut packet is marked last, and every segment carries data. */
  lemma OneLast(segments: seq<Segment>, packet: seq<Byte>, max: nat, id: nat, i: nat)
    requires max > 0 && Cut(segments, packet, max, id, Total(|packet|, max)) && i < |segments|
    ensures segments[i].header.last <==> i == |segments| - 1
    ensures 0 < |segments[i].data| <= max
  {
    PieceData(packet, max, id, Total(|packet|, max), i);
    assert segments[i] == SegmentAt(packet, max, id, Total(|packet|, max), i);
  }

  lemma PieceData(packet: seq<Byte>, max: nat, id: nat, total: nat, i: nat)
    requires max > 0 && i < total <= Count(|packet|, max)
    ensures i * max <= |packet|
    ensures var s := SegmentAt(packet, max, id, total, i); 0 < |s.data| <= max && (s.header.last <==> i == total - 1)
  {
    PieceInside(|packet|, max, i);
  }

  // ---------------------------------------------------------------------------------------------
  // Reassembly
  // ---------------------------------------------------------------------------------------------

  /** Write `data` at `offset`; a piece that does not lie inside the buffer is ignored. */
  function Write(buf: seq<Byte>, offset: nat, data: seq<Byte>): (res: seq<Byte>)
    ensures |res| == |buf|
  {
    if offset + |data| > |buf| then buf else buf[..offset] + data + buf[offset + |data|..]
  }

  /** What the sender may change in a segment's header before it goes out. */
  function Stamp(s: Segment, poll: bool, queueId: Byte, priority: Byte): Segment {
    s.(header := s.header.(poll := poll, queueId := queueId, priority := priority))
  }

  /** The wire form of each segment, in the order of their numbers. */
  predicate OnWire(wire: seq<seq<Byte>>, segments: seq<Segment>, polls: seq<bool>, queueId: Byte, priority: Byte) {
    && |wire| == |segments| == |polls|
    && forall i :: 0 <= i < |wire| ==> wire[i] == Serialize(Stamp(segments[i], polls[i], queueId, priority))
  }

  /** Bytes of piece `i` are in place. */
  predicate InPlace(buf: seq<Byte>, packet: seq<Byte>, max: nat, i: nat)
    requires |buf| == |packet| && max > 0
  {
    forall p :: 0 <= p < |packet| && i * max <= p < i * max + max ==> buf[p] == packet[p]
  }

  lemma WritePiece(buf: seq<Byte>, packet: seq<Byte>, max: nat, i: nat, j: nat)
    requires |buf| == |packet| && max > 0 && i < Count(|packet|, max)
    requires i * max <= |packet|
    ensures var buf' := Write(buf, i * max, packet[i * max..i * max + PieceSize(|packet|, max, i)]);
            && InPlace(buf', packet, max, i)
            && (InPlace(buf, packet, max, j) ==> InPlace(buf', packet, max, j))
  {
  }

  lemma StampedFits(packet: seq<Byte>, max: nat, id: nat, total: nat, i: nat,
                    poll: bool, queueId: Byte, priority: Byte)
    requires 0 < max < U16 && |packet| < U32 && id < U32 && i < total < U16 && i * max <= |packet|
    ensures var s := Stamp(SegmentAt(packet, max, id, total, i), poll, queueId, priority);
            && Fits(s.header) && s.header.segmentSize == |s.data| && s.header.offset == i * max
            && s.header.packetId == id && s.header.number == i && s.header.total == total
            && s.header.originalSize == |packet|
  {
  }

  /** A packet cut into segments, and the segments' wire forms; what fits the header's fields. */
  datatype Transfer = Transfer(
    packet: seq<Byte>, max: nat, id: nat, segments: seq<Segment>,
    polls: seq<bool>, queueId: Byte, priority: Byte, wire: seq<seq<Byte>>)
  {
    ghost predicate Valid() {
      && 0 < max < U16 && |packet| < U32 && id < U32
      && Cut(segments, packet, max, id, Total(|packet|, max))
      && OnWire(wire, segments, polls, queueId, priority)
    }
  }

  lemma WireSegment(t: Transfer, i: nat)
    requires t.Valid() && i < |t.wire|
    ensures i * t.max <= |t.packet|
    ensures var s := Deserialize(t.wire[i]);
            && s.header.offset == i * t.max
            && s.data == t.packet[i * t.max..i * t.max + PieceSize(|t.packet|, t.max, i)]
            && s.header.packetId == t.id && s.header.number == i && s.header.total == |t.wire|
            && s.header.originalSize == |t.packet|
  {
    var total := Total(|t.packet|, t.max);
    PieceInside(|t.packet|, t.max, i);
    assert t.segments[i] == SegmentAt(t.packet, t.max, t.id, total, i);
    StampedFits(t.packet, t.max, t.id, total, i, t.polls[i], t.queueId, t.priority);
    var s := Stamp(t.segments[i], t.polls[i], t.queueId, t.priority);
    SegmentRoundTrip(s);
    assert Deserialize(t.wire[i]) == s;
  }

  lemma AllPieces(buf: seq<Byte>, packet: seq<Byte>, max: nat)
    requires |buf| == |packet| && max > 0
    requires forall i: nat :: i < Count(|packet|, max) ==> InPlace(buf, packet, max, i)
    ensures buf == packet
  {
    forall p | 0 <= p < |packet| ensures buf[p] == packet[p] {
      var i := PieceOf(|packet|, max, p);
      assert InPlace(buf, packet, max, i);
    }
  }

  /** The piece that holds position `p`. */
  lemma PieceOf(len: nat, max: nat, p: nat) returns (i: nat)
    requires max > 0 && p < len
    ensures i < Count(len, max) && i * max <= p < i * max + max
  {
    i := p / max;
    DivBounds(p, max);
    DivBounds(len + max - 1, max);
    if i >= Count(len, max) {
      MulMonotone(Count(len, max) + 1, i + 1, max);
    }
  }
}
