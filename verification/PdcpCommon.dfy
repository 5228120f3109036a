/** The IP checksum (section 1 of RFC 1071), on a little-endian host, and the IP-in-IP form of a PDCP packet. */
module PdcpCommon {
  import opened Options
  import opened Bytes
  import opened PdcpHeader

  const U16 := 0x1_0000

  // ---------------------------------------------------------------------------------------------
  // The checksum
  // ---------------------------------------------------------------------------------------------

  /** The sum of the 16-bit words; an odd last byte is a word of its own. */
  function WordSum(data: seq<Byte>): nat {
    if data == [] then 0
    else if |data| == 1 then data[0]
    else data[0] + 256 * data[1] + WordSum(data[2..])
  }

  /** Add the high half to the low half until nothing is left above 16 bits. */
  function Fold(s: nat): (r: nat)
    ensures r < U16
  {
    if s < U16 then s else Fold(s % U16 + s / U16)
  }

  function Checksum(data: seq<Byte>): nat {
    0xFFFF - Fold(WordSum(data))
  }

  lemma AddMultiple(a: nat, q: nat)
    ensures (a + 65535 * q) % 65535 == a % 65535
  {
  }

  /** Folding keeps the sum modulo 65535, and is 0 only for 0. */
  lemma {:induction false} FoldKeepsResidue(s: nat)
    ensures Fold(s) % 65535 == s % 65535
    ensures Fold(s) == 0 <==> s == 0
  {
    if s >= U16 {
      var t := s % U16 + s / U16;
      assert s == t + 65535 * (s / U16);
      AddMultiple(t, s / U16);
      FoldKeepsResidue(t);
    }
  }

  lemma {:induction false} WordSumBound(data: seq<Byte>)
    ensures WordSum(data) <= (|data| + 1) / 2 * 65535
  {
    if |data| >= 2 {
      WordSumBound(data[2..]);
    }
  }

  /**
   `calculateIpChecksum`. The sum is a 32-bit variable; up to 65537 words it does not overflow, and the result is the
   complement of the folded sum.
  */
  method CalculateIpChecksum(data: seq<Byte>) returns (check: nat)
    ensures |data| <= 2 * 65537 ==> check == Checksum(data)
    ensures check <= 0xFFFF
  {
    var sum: nat := 0;
    var length: nat := |data|;
    var at: nat := 0;
    while length > 1
      invariant at + length == |data| && at % 2 == 0 && sum < U32
      invariant |data| <= 2 * 65537 ==> sum + WordSum(data[at..]) == WordSum(data)
      decreases length
    {
      WordSumBound(data);
      assert data[at..][2..] == data[at + 2..];
      var low: nat, high: nat := data[at], data[at + 1];
      sum := (sum + (low + 256 * high)) % U32;
      at := at + 2;
      length := length - 2;
    }
    if length == 1 {
      WordSumBound(data);
      assert data[at..] == [data[at]];
      var last: nat := data[at];
      sum := (sum + last) % U32;
    }
    assert |data| <= 2 * 65537 ==> sum == WordSum(data);
    ghost var total := sum;
    while sum / U16 != 0
      invariant Fold(sum) == Fold(total)
      decreases sum
    {
      sum := sum % U16 + sum / U16;
    }
    check := 0xFFFF - sum;
  }

  /** Bytes `p` and `p + 1` replaced by the two bytes of `c`, low byte first. */
  function StoreWord(data: seq<Byte>, p: nat, c: nat): (res: seq<Byte>)
    requires p + 1 < |data| && c < U16
    ensures |res| == |data|
  {
    data[p := c % 256][p + 1 := c / 256]
  }

  lemma {:induction false} StoreAddsWord(data: seq<Byte>, p: nat, c: nat)
    requires p % 2 == 0 && p + 1 < |data| && c < U16 && data[p] == data[p + 1] == 0
    ensures WordSum(StoreWord(data, p, c)) == WordSum(data) + c
  {
    var data' := StoreWord(data, p, c);
    if p == 0 {
      assert data'[2..] == data[2..];
    } else {
      assert data'[2..] == StoreWord(data[2..], p - 2, c);
      StoreAddsWord(data[2..], p - 2, c);
    }
  }

  /** Storing the checksum in a zeroed, even-aligned field makes a recomputation give 0. */
  lemma StoredChecksumVerifies(data: seq<Byte>, p: nat)
    requires p % 2 == 0 && p + 1 < |data| && data[p] == data[p + 1] == 0
    ensures Checksum(StoreWord(data, p, Checksum(data))) == 0
  {
    var s, c := WordSum(data), Checksum(data);
    StoreAddsWord(data, p, c);
    FoldKeepsResidue(s);
    FoldKeepsResidue(s + c);
    FullResidue(s, Fold(s), Fold(s + c));
  }

  lemma FullResidue(s: nat, f: nat, g: nat)
    requires f < U16 && g < U16 && f % 65535 == s % 65535
    requires g % 65535 == (s + (0xFFFF - f)) % 65535 && g != 0
    ensures g == 0xFFFF
  {
    var q := s / 65535;
    assert s == 65535 * q + s % 65535;
    if f == 65535 {
      assert s % 65535 == 0;
    } else {
      assert f == s % 65535;
      assert s + (65535 - f) == 65535 * (q + 1);
    }
  }

  // ---------------------------------------------------------------------------------------------
  // Encapsulation
  // ---------------------------------------------------------------------------------------------

  const IPV4_HEADER := 20

  /** The outer header before its checksum: IPv4, 20 bytes, time to live 64, protocol 4. */
  function OuterHeader(total: nat, seqNo: nat): (s: seq<Byte>)
    ensures |s| == IPV4_HEADER
  {
    [0x45, 0] + BigEndian(total % U16, 2) + BigEndian(seqNo % U16, 2) + [0, 0] + [64, 4] + [0, 0]
    + BigEndian(0x0A640001, 4) + BigEndian(0x09090909, 4)
  }

  function CreatePdcpPacket(ip: seq<Byte>, epoch: nat, seqNo: nat, flags: Byte, now: nat): Option<seq<Byte>> {
    var total := IPV4_HEADER + HEADER_SIZE + |ip|;
    if total > MAX_PACKET_SIZE then None
    else
      var outer := OuterHeader(total, seqNo);
      Some(StoreWord(outer, 10, Checksum(outer)) + Encode(Header(epoch, flags, 0, seqNo, now)) + ip)
  }

  datatype Extracted = Extracted(ip: seq<Byte>, epoch: nat, seqNo: nat, timestamp: nat)

  function ExtractIpPacket(p: seq<Byte>): Option<Extracted> {
    if |p| < IPV4_HEADER + HEADER_SIZE then None
    else if p[9] != 4 then None
    else
      var outer := p[0] % 16 * 4;
      if |p| < outer + HEADER_SIZE then None
      else
        var h := Decode(p[outer..]);
        Some(Extracted(p[outer + HEADER_SIZE..], h.epoch, h.seqNo, h.timestamp))
  }

  /** Extraction inverts encapsulation: packet, epoch, sequence number and timestamp come back. */
  lemma ExtractInvertsCreate(ip: seq<Byte>, epoch: nat, seqNo: nat, flags: Byte, now: nat)
    requires epoch < U32 && seqNo < U32 && now < U64
    requires IPV4_HEADER + HEADER_SIZE + |ip| <= MAX_PACKET_SIZE
    ensures var p := CreatePdcpPacket(ip, epoch, seqNo, flags, now);
            p.Some? && ExtractIpPacket(p.value) == Some(Extracted(ip, epoch, seqNo, now))
  {
    var total := IPV4_HEADER + HEADER_SIZE + |ip|;
    var outer := OuterHeader(total, seqNo);
    var stored := StoreWord(outer, 10, Checksum(outer));
    var inner := Encode(Header(epoch, flags, 0, seqNo, now)) + ip;
    var p := CreatePdcpPacket(ip, epoch, seqNo, flags, now).value;
    assert p == stored + inner;
    assert p[0] == 0x45 && p[9] == 4;
    assert p[20..] == inner;
    HeaderRoundTrip(Header(epoch, flags, 0, seqNo, now), ip);
    assert p[20 + HEADER_SIZE..] == inner[HEADER_SIZE..];
  }

  lemma OuterFields(length: seq<Byte>, id: seq<Byte>, source: seq<Byte>, destination: seq<Byte>)
    requires |length| == |id| == 2 && |source| == |destination| == 4
    ensures var s := [0x45, 0] + length + id + [0, 0] + [64, 4] + [0, 0] + source + destination;
            s[2..4] == length && s[10] == s[11] == 0
  {
  }

  lemma OuterLength(total: nat, seqNo: nat)
    requires total < U16
    ensures FromBigEndian(OuterHeader(total, seqNo)[2..4]) == total
    ensures OuterHeader(total, seqNo)[10] == OuterHeader(total, seqNo)[11] == 0
  {
    Width2();
    BigEndianRoundTrip(total, 2);
    OuterFields(BigEndian(total % U16, 2), BigEndian(seqNo % U16, 2),
                BigEndian(0x0A640001, 4), BigEndian(0x09090909, 4));
  }

  /** Every outer header passes the checksum test, and its length field is the packet's length. */
  lemma OuterHeaderIsValid(ip: seq<Byte>, epoch: nat, seqNo: nat, flags: Byte, now: nat)
    requires IPV4_HEADER + HEADER_SIZE + |ip| <= MAX_PACKET_SIZE
    ensures var p := CreatePdcpPacket(ip, epoch, seqNo, flags, now);
            && p.Some? && |p.value| >= IPV4_HEADER
            && Checksum(p.value[..IPV4_HEADER]) == 0
            && FromBigEndian(p.value[2..4]) == |p.value|
  {
    var total := IPV4_HEADER + HEADER_SIZE + |ip|;
    var outer := OuterHeader(total, seqNo);
    var stored := StoreWord(outer, 10, Checksum(outer));
    var p := CreatePdcpPacket(ip, epoch, seqNo, flags, now).value;
    OuterLength(total, seqNo);
    StoredChecksumVerifies(outer, 10);
    assert p[..IPV4_HEADER] == stored;
    assert p[2..4] == stored[2..4] == outer[2..4];
  }

  lemma AddressBytes()
    ensures BigEndian(0x0A640001, 4) == [10, 100, 0, 1]
    ensures BigEndian(0x09090909, 4) == [9, 9, 9, 9]
  {
    assert BigEndian(0x0A64, 2) == [10, 100];
    assert BigEndian(0x0909, 2) == [9, 9];
  }

  /**
   What a router reads in the outer header: version 4 and 20 bytes of header, the number's low half as identification,
   no fragment, time to live 64, protocol IP-in-IP, from 10.100.0.1 to 9.9.9.9.
  */
  lemma OuterHeaderFields(ip: seq<Byte>, epoch: nat, seqNo: nat, flags: Byte, now: nat)
    requires IPV4_HEADER + HEADER_SIZE + |ip| <= MAX_PACKET_SIZE
    ensures var p := CreatePdcpPacket(ip, epoch, seqNo, flags, now);
            && p.Some? && |p.value| >= IPV4_HEADER
            && p.value[0] == 4 * 16 + 5 && p.value[1] == 0
            && FromBigEndian(p.value[4..6]) == seqNo % U16
            && p.value[6..8] == [0, 0] && p.value[8] == 64 && p.value[9] == 4
            && p.value[12..16] == [10, 100, 0, 1] && p.value[16..20] == [9, 9, 9, 9]
  {
    var total := IPV4_HEADER + HEADER_SIZE + |ip|;
    var outer := OuterHeader(total, seqNo);
    var stored := StoreWord(outer, 10, Checksum(outer));
    var p := CreatePdcpPacket(ip, epoch, seqNo, flags, now).value;
    Width2();
    BigEndianRoundTrip(seqNo % U16, 2);
    AddressBytes();
    assert p[..IPV4_HEADER] == stored;
    assert p[4..6] == BigEndian(seqNo % U16, 2);
    assert p[12..16] == [10, 100, 0, 1];
    assert p[16..20] == [9, 9, 9, 9];
  }
}
