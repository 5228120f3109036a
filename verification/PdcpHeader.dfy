/** The 28-byte PDCP header, as a little-endian host lays it out. */
module PdcpHeader {
  import opened Bytes

  const HEADER_SIZE := 28
  const MAX_PACKET_SIZE := 65535
  const U32 := 0x1_0000_0000
  const U64 := 0x1_0000_0000_0000_0000

  datatype Header = Header(epoch: nat, flags: Byte, pad: Byte, seqNo: nat, timestamp: nat)

  /** The fields fit what the code converts: 32 bits for epoch and sequence number, 64 for the time. */
  predicate Fits(h: Header) {
    h.epoch < U32 && h.seqNo < U32 && h.timestamp < U64
  }

  /**
   `htonl` yields 32 bits, which are widened into a 64-bit field: on a little-endian host the network-order
   bytes come first and four zero bytes follow.
  */
  function WideField(n: nat): (s: seq<Byte>)
    ensures |s| == 8
  {
    BigEndian(n % U32, 4) + [0, 0, 0, 0]
  }

  function Encode(h: Header): (s: seq<Byte>)
    ensures |s| == HEADER_SIZE
  {
    WideField(h.epoch) + [h.flags, h.pad] + [0, 0] + WideField(h.seqNo) + BigEndian(h.timestamp % U64, 8)
  }

  /** `ntohl` of a 64-bit field looks at its low 32 bits, which are its first four bytes. */
  function Decode(s: seq<Byte>): Header
    requires |s| >= HEADER_SIZE
  {
    Header(FromBigEndian(s[0..4]), s[8], s[9], FromBigEndian(s[12..16]), FromBigEndian(s[20..28]))
  }

  lemma U32RoundTrip(n: nat)
    requires n < U32
    ensures FromBigEndian(BigEndian(n % U32, 4)) == n
  {
    Width4();
    BigEndianRoundTrip(n % U32, 4);
  }

  lemma U64RoundTrip(n: nat)
    requires n < U64
    ensures FromBigEndian(BigEndian(n % U64, 8)) == n
  {
    Width8();
    BigEndianRoundTrip(n % U64, 8);
  }

  lemma Layout(a: seq<Byte>, f: seq<Byte>, z: seq<Byte>, b: seq<Byte>, t: seq<Byte>, rest: seq<Byte>)
    requires |a| == |b| == |z| == 4 && |f| == 4 && |t| == 8
    ensures var s := (a + z) + f + (b + z) + t + rest;
            && s[0..4] == a && s[8..12] == f && s[12..16] == b && s[20..28] == t && s[28..] == rest
  {
  }

  lemma HeaderRoundTrip(h: Header, rest: seq<Byte>)
    requires Fits(h)
    ensures Decode(Encode(h) + rest) == h
    ensures (Encode(h) + rest)[HEADER_SIZE..] == rest
  {
    U32RoundTrip(h.epoch);
    U32RoundTrip(h.seqNo);
    U64RoundTrip(h.timestamp);
    var f := [h.flags, h.pad] + [0, 0];
    Layout(BigEndian(h.epoch % U32, 4), f, [0, 0, 0, 0], BigEndian(h.seqNo % U32, 4),
           BigEndian(h.timestamp % U64, 8), rest);
    var s := Encode(h) + rest;
    assert Encode(h) == WideField(h.epoch) + f + WideField(h.seqNo) + BigEndian(h.timestamp % U64, 8);
    assert s[8] == s[8..12][0] && s[9] == s[8..12][1];
  }
}
