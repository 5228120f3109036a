/** The RLC status PDU: its constructors, and its wire form of a 12-byte header and 8 bytes for each NACK. */
module StatusPdu {
  import opened Bytes
  import R = RlcSegmentation

  const STATUS := 1
  const ACK := 1
  const NACK := 2
  const BITMAP := 4
  const MAX_NACKS := 32
  const HEADER_SIZE := 12
  const NACK_SIZE := 8
  const U16 := 0x1_0000
  const U32 := 0x1_0000_0000

  datatype Nack = Nack(packetId: nat, segmentId: nat, flags: nat)

  datatype Pdu = Pdu(pduType: Byte, control: Byte, reserved: nat, ackSn: nat, nackCount: nat, window: nat,
                     nacks: seq<Nack>)

  // ---------------------------------------------------------------------------------------------
  // Constructors
  // ---------------------------------------------------------------------------------------------

  function Default(): Pdu {
    Pdu(STATUS, ACK, 0, 0, 0, 0, [])
  }

  function AckPdu(sn: nat, window: nat): Pdu {
    Pdu(STATUS, ACK, 0, sn, 0, window, [])
  }

  /** At most 32 NACKs are kept, and a non-empty list sets the bitmap flag. */
  function NackPdu(sn: nat, window: nat, missing: seq<Nack>): Pdu {
    var nacks := if |missing| > MAX_NACKS then missing[..MAX_NACKS] else missing;
    var count := if |missing| > MAX_NACKS then MAX_NACKS else |missing| % U16;
    Pdu(STATUS, if nacks == [] then NACK else NACK + BITMAP, 0, sn, count, window, nacks)
  }

  predicate HasNackFlag(control: Byte) {
    control / 2 % 2 == 1
  }

  // ---------------------------------------------------------------------------------------------
  // The wire form
  // ---------------------------------------------------------------------------------------------

  function EncodeNack(n: Nack): (s: seq<Byte>)
    ensures |s| == NACK_SIZE
  {
    BigEndian(n.packetId, 4) + BigEndian(n.segmentId, 2) + BigEndian(n.flags, 2)
  }

  function EncodeHeader(p: Pdu): (s: seq<Byte>)
    ensures |s| == HEADER_SIZE
  {
    [p.pduType, p.control] + BigEndian(p.reserved, 2) + BigEndian(p.ackSn, 4) + BigEndian(p.nackCount, 2)
    + BigEndian(p.window, 2)
  }

  function Zeros(n: nat): (s: seq<Byte>)
    ensures |s| == n && forall i :: 0 <= i < n ==> s[i] == 0
  {
    if n == 0 then [] else Zeros(n - 1) + [0]
  }

  /** The first `n` places for NACKs; places beyond the list stay zero. */
  function EncodeNacks(p: Pdu, n: nat): (s: seq<Byte>)
    ensures |s| == NACK_SIZE * n
  {
    if n == 0 then []
    else EncodeNacks(p, n - 1) + (if n <= |p.nacks| then EncodeNack(p.nacks[n - 1]) else Zeros(NACK_SIZE))
  }

  function Encode(p: Pdu): seq<Byte> {
    EncodeHeader(p) + EncodeNacks(p, p.nackCount)
  }

  function DecodeNack(s: seq<Byte>): Nack
    requires |s| >= NACK_SIZE
  {
    Nack(FromBigEndian(s[0..4]), FromBigEndian(s[4..6]), FromBigEndian(s[6..8]))
  }

  function DecodeNacks(s: seq<Byte>, n: nat): (nacks: seq<Nack>)
    requires |s| >= NACK_SIZE * n
    ensures |nacks| == n
  {
    if n == 0 then []
    else DecodeNacks(s, n - 1) + [DecodeNack(s[NACK_SIZE * (n - 1)..NACK_SIZE * n])]
  }

  function Decode(s: seq<Byte>): Pdu {
    if |s| < HEADER_SIZE then Default()
    else
      var count := FromBigEndian(s[8..10]);
      var header :=
        Pdu(s[0], s[1], FromBigEndian(s[2..4]), FromBigEndian(s[4..8]), count, FromBigEndian(s[10..12]), []);
      if |s| >= HEADER_SIZE + NACK_SIZE * count && HasNackFlag(s[1])
      then header.(nacks := DecodeNacks(s[HEADER_SIZE..], count))
      else header
  }

  /** The header and the first `i` NACKs are in place, and the rest is zero. */
  ghost predicate Filled(bytes: seq<Byte>, p: Pdu, i: nat)
    requires i <= p.nackCount
  {
    bytes == (EncodeHeader(p) + EncodeNacks(p, i)) + Zeros(NACK_SIZE * (p.nackCount - i))
  }

  lemma ZerosSplit(a: nat, b: nat)
    ensures Zeros(a + b) == Zeros(a) + Zeros(b)
  {
  }

  /** Copying the next NACK over the first zeros. */
  lemma FillOne(before: seq<Byte>, after: seq<Byte>, p: Pdu, i: nat)
    requires i < p.nackCount && i < |p.nacks| && Filled(before, p, i)
    requires var at := HEADER_SIZE + NACK_SIZE * i;
             && |before| == |after| && at + NACK_SIZE <= |before|
             && after[..at + NACK_SIZE] == before[..at] + EncodeNack(p.nacks[i])
             && after[at + NACK_SIZE..] == before[at + NACK_SIZE..]
    ensures Filled(after, p, i + 1)
  {
    var at := HEADER_SIZE + NACK_SIZE * i;
    var left := NACK_SIZE * (p.nackCount - i - 1);
    ZerosSplit(NACK_SIZE, left);
    assert before[..at] == EncodeHeader(p) + EncodeNacks(p, i);
    assert before[at + NACK_SIZE..] == Zeros(left);
    assert after == after[..at + NACK_SIZE] + after[at + NACK_SIZE..];
    assert (EncodeHeader(p) + EncodeNacks(p, i)) + EncodeNack(p.nacks[i]) == EncodeHeader(p) + EncodeNacks(p, i + 1);
  }

  /** The bytes are zeroed, then the header's fields and the NACKs are copied to their places. */
  method Serialize(p: Pdu) returns (buf: array<Byte>)
    ensures fresh(buf) && buf[..] == Encode(p)
  {
    buf := new Byte[HEADER_SIZE + NACK_SIZE * p.nackCount](i => 0);
    R.CopyTo(buf, 0, EncodeHeader(p));
    assert buf[..] == buf[..HEADER_SIZE] + buf[HEADER_SIZE..];
    assert buf[..] == (EncodeHeader(p) + []) + Zeros(NACK_SIZE * p.nackCount);
    var i := 0;
    while i < p.nackCount && i < |p.nacks|
      invariant i <= p.nackCount && i <= |p.nacks|
      invariant fresh(buf) && buf.Length == HEADER_SIZE + NACK_SIZE * p.nackCount
      invariant Filled(buf[..], p, i)
    {
      ghost var before := buf[..];
      R.CopyTo(buf, HEADER_SIZE + NACK_SIZE * i, EncodeNack(p.nacks[i]));
      FillOne(before, buf[..], p, i);
      i := i + 1;
    }
    PlacesBeyond(p, i, p.nackCount);
  }

  lemma {:induction false} PlacesBeyond(p: Pdu, i: nat, n: nat)
    requires i <= n && (i < n ==> i >= |p.nacks|)
    ensures EncodeNacks(p, n) == EncodeNacks(p, i) + Zeros(NACK_SIZE * (n - i))
  {
    if i == n {
      assert Zeros(0) == [];
    } else {
      PlacesBeyond(p, i, n - 1);
      assert Zeros(NACK_SIZE * (n - 1 - i)) + Zeros(NACK_SIZE) == Zeros(NACK_SIZE * (n - i));
    }
  }

  // ---------------------------------------------------------------------------------------------
  // The round trip
  // ---------------------------------------------------------------------------------------------

  predicate NackFits(n: Nack) {
    n.packetId < U32 && n.segmentId < U16 && n.flags < U16
  }

  predicate Fits(p: Pdu) {
    && p.reserved < U16 && p.ackSn < U32 && p.nackCount < U16 && p.window < U16
    && forall i :: 0 <= i < |p.nacks| ==> NackFits(p.nacks[i])
  }

  lemma NackRoundTrip(n: Nack)
    requires NackFits(n)
    ensures DecodeNack(EncodeNack(n)) == n
  {
    Width2();
    Width4();
    BigEndianRoundTrip(n.packetId, 4);
    BigEndianRoundTrip(n.segmentId, 2);
    BigEndianRoundTrip(n.flags, 2);
    var s := EncodeNack(n);
    assert s[0..4] == BigEndian(n.packetId, 4) && s[4..6] == BigEndian(n.segmentId, 2)
        && s[6..8] == BigEndian(n.flags, 2);
  }

  lemma {:induction false} NacksRoundTrip(p: Pdu, rest: seq<Byte>, n: nat)
    requires Fits(p) && n <= |p.nacks|
    ensures DecodeNacks(EncodeNacks(p, n) + rest, n) == p.nacks[..n]
    decreases n
  {
    if n > 0 {
      var last := EncodeNack(p.nacks[n - 1]);
      var s := EncodeNacks(p, n) + rest;
      assert s == EncodeNacks(p, n - 1) + (last + rest);
      NacksRoundTrip(p, last + rest, n - 1);
      NackRoundTrip(p.nacks[n - 1]);
      assert s[NACK_SIZE * (n - 1)..NACK_SIZE * n] == last;
      assert p.nacks[..n] == p.nacks[..n - 1] + [p.nacks[n - 1]];
    }
  }

  lemma HeaderLayout(a: seq<Byte>, b: seq<Byte>, c: seq<Byte>, d: seq<Byte>, e: seq<Byte>, rest: seq<Byte>)
    requires |a| == |b| == |d| == |e| == 2 && |c| == 4
    ensures var s := a + b + c + d + e + rest;
            && s[0] == a[0] && s[1] == a[1] && s[2..4] == b && s[4..8] == c && s[8..10] == d && s[10..12] == e
            && s[12..] == rest
  {
  }

  /** What the constructors make fits the fields, and its list is as long as its count says. */
  predicate WellFormed(p: Pdu) {
    Fits(p) && p.nackCount == |p.nacks| <= MAX_NACKS && (HasNackFlag(p.control) || p.nacks == [])
  }

  lemma ConstructorsAreWellFormed(sn: nat, window: nat, missing: seq<Nack>)
    requires sn < U32 && window < U16 && forall i :: 0 <= i < |missing| ==> NackFits(missing[i])
    ensures WellFormed(AckPdu(sn, window)) && WellFormed(NackPdu(sn, window, missing))
    ensures NackPdu(sn, window, missing).nacks == missing[..if |missing| < MAX_NACKS then |missing| else MAX_NACKS]
  {
    if |missing| <= MAX_NACKS {
      assert missing[..|missing|] == missing;
    }
  }

  /** Deserialising what was serialised gives every field and every NACK back. */
  lemma StatusRoundTrip(p: Pdu)
    requires WellFormed(p)
    ensures Decode(Encode(p)) == p
  {
    Width2();
    Width4();
    BigEndianRoundTrip(p.reserved, 2);
    BigEndianRoundTrip(p.ackSn, 4);
    BigEndianRoundTrip(p.nackCount, 2);
    BigEndianRoundTrip(p.window, 2);
    var body := EncodeNacks(p, p.nackCount);
    HeaderLayout([p.pduType, p.control], BigEndian(p.reserved, 2), BigEndian(p.ackSn, 4),
                 BigEndian(p.nackCount, 2), BigEndian(p.window, 2), body);
    NacksRoundTrip(p, [], p.nackCount);
    assert body + [] == body && p.nacks[..p.nackCount] == p.nacks;
  }
}
