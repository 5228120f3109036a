/**
 The RIC control message, on a little-endian host. `Parsed` says what a buffer holds; `Overrun` are the buffers whose
 counts or sizes point past their end, which the source would read beyond.
*/
module RicMessage {
  import opened Bytes

  const LINK_ALLOCATION := 0
  const PDCP_PACKETS := 1
  const FIXED_SIZE := 17
  const U16 := 0x1_0000
  const U32 := 0x1_0000_0000
  const U64 := 0x1_0000_0000_0000_0000

  /** `ratio` is the 64-bit pattern of the double. */
  datatype LinkControl = LinkControl(linkId: nat, ratio: nat)

  datatype PacketData = PacketData(sn: nat, data: seq<Byte>)

  datatype Message = Message(kind: Byte, ueId: nat, frameId: nat, timestamp: nat,
                             links: seq<LinkControl>, packets: seq<PacketData>)

  // ---------------------------------------------------------------------------------------------
  // Writing
  // ---------------------------------------------------------------------------------------------

  function EncodeLink(l: LinkControl): (s: seq<Byte>)
    ensures |s| == 12
  {
    LittleEndian(l.linkId, 4) + LittleEndian(l.ratio, 8)
  }

  function EncodeLinks(ls: seq<LinkControl>): seq<Byte> {
    if ls == [] then [] else EncodeLinks(ls[..|ls| - 1]) + EncodeLink(ls[|ls| - 1])
  }

  function EncodePacket(p: PacketData): seq<Byte> {
    LittleEndian(p.sn, 2) + LittleEndian(|p.data|, 4) + p.data
  }

  function EncodePackets(ps: seq<PacketData>): seq<Byte> {
    if ps == [] then [] else EncodePackets(ps[..|ps| - 1]) + EncodePacket(ps[|ps| - 1])
  }

  function EncodeFixed(m: Message): (s: seq<Byte>)
    ensures |s| == FIXED_SIZE
  {
    [m.kind] + LittleEndian(m.ueId, 4) + LittleEndian(m.frameId, 4) + LittleEndian(m.timestamp, 8)
  }

  /** Only the list that belongs to the message type is written. */
  function Encode(m: Message): seq<Byte> {
    EncodeFixed(m)
    + if m.kind == LINK_ALLOCATION then LittleEndian(|m.links|, 4) + EncodeLinks(m.links)
      else if m.kind == PDCP_PACKETS then LittleEndian(|m.packets|, 4) + EncodePackets(m.packets)
      else []
  }

  // ---------------------------------------------------------------------------------------------
  // Reading
  // ---------------------------------------------------------------------------------------------

  datatype Read<T> = Overrun | Got(value: T, rest: seq<Byte>)

  function ReadLink(s: seq<Byte>): Read<LinkControl> {
    if |s| < 12 then Overrun
    else Got(LinkControl(FromLittleEndian(s[0..4]), FromLittleEndian(s[4..12])), s[12..])
  }

  function ReadLinks(s: seq<Byte>, n: nat): Read<seq<LinkControl>> {
    if n == 0 then Got([], s)
    else
      match ReadLinks(s, n - 1)
      case Overrun => Overrun
      case Got(ls, rest) =>
        match ReadLink(rest)
        case Overrun => Overrun
        case Got(l, rest') => Got(ls + [l], rest')
  }

  function ReadPacket(s: seq<Byte>): Read<PacketData> {
    if |s| < 6 then Overrun
    else
      var size := FromLittleEndian(s[2..6]);
      if |s| < 6 + size then Overrun
      else Got(PacketData(FromLittleEndian(s[0..2]), s[6..6 + size]), s[6 + size..])
  }

  function ReadPackets(s: seq<Byte>, n: nat): Read<seq<PacketData>> {
    if n == 0 then Got([], s)
    else
      match ReadPackets(s, n - 1)
      case Overrun => Overrun
      case Got(ps, rest) =>
        match ReadPacket(rest)
        case Overrun => Overrun
        case Got(p, rest') => Got(ps + [p], rest')
  }

  function ReadCount(s: seq<Byte>): Read<nat> {
    if |s| < 4 then Overrun else Got(FromLittleEndian(s[0..4]), s[4..])
  }

  datatype Outcome = Rejected | PastTheEnd | Parsed(message: Message)

  function ReadFixed(s: seq<Byte>, old_: Message): Message
    requires |s| >= FIXED_SIZE
  {
    old_.(kind := s[0], ueId := FromLittleEndian(s[1..5]), frameId := FromLittleEndian(s[5..9]),
          timestamp := FromLittleEndian(s[9..17]))
  }

  /** What reading `s` into the object `old_` does: a list the message does not carry keeps its old value. */
  function Parse(s: seq<Byte>, old_: Message): Outcome {
    if |s| < FIXED_SIZE then Rejected
    else
      var m := ReadFixed(s, old_);
      if m.kind == LINK_ALLOCATION then
        match ReadCount(s[FIXED_SIZE..])
        case Overrun => PastTheEnd
        case Got(n, rest) =>
          (match ReadLinks(rest, n)
           case Overrun => PastTheEnd
           case Got(ls, _) => Parsed(m.(links := ls)))
      else if m.kind == PDCP_PACKETS then
        match ReadCount(s[FIXED_SIZE..])
        case Overrun => PastTheEnd
        case Got(n, rest) =>
          (match ReadPackets(rest, n)
           case Overrun => PastTheEnd
           case Got(ps, _) => Parsed(m.(packets := ps)))
      else Parsed(m)
  }

  // ---------------------------------------------------------------------------------------------
  // Which buffers are read inside their bounds
  // ---------------------------------------------------------------------------------------------

  /** Where `n` packets from `at` on end by their own size fields; a header that is cut off ends beyond the buffer. */
  function PacketsEnd(s: seq<Byte>, at: nat, n: nat): (end: nat)
    ensures end >= at
  {
    if n == 0 then at
    else
      var e := PacketsEnd(s, at, n - 1);
      if e + 6 > |s| then e + 6 else e + 6 + FromLittleEndian(s[e + 2..e + 6])
  }

  /** The count and all that it announces lie in the buffer. */
  predicate ReadsInside(s: seq<Byte>) {
    |s| >= FIXED_SIZE && (s[0] == LINK_ALLOCATION || s[0] == PDCP_PACKETS) ==>
      && |s| >= FIXED_SIZE + 4
      && var n := FromLittleEndian(s[FIXED_SIZE..FIXED_SIZE + 4]);
         if s[0] == LINK_ALLOCATION then |s| >= FIXED_SIZE + 4 + 12 * n
         else PacketsEnd(s, FIXED_SIZE + 4, n) <= |s|
  }

  lemma {:induction false} LinksInside(s: seq<Byte>, n: nat)
    ensures ReadLinks(s, n).Got? <==> 12 * n <= |s|
    ensures ReadLinks(s, n).Got? ==> |ReadLinks(s, n).rest| == |s| - 12 * n
  {
    if n > 0 {
      LinksInside(s, n - 1);
    }
  }

  lemma {:induction false} PacketsInside(s: seq<Byte>, at: nat, n: nat)
    requires at <= |s|
    ensures ReadPackets(s[at..], n).Got? <==> PacketsEnd(s, at, n) <= |s|
    ensures ReadPackets(s[at..], n).Got? ==> ReadPackets(s[at..], n).rest == s[PacketsEnd(s, at, n)..]
  {
    if n > 0 {
      PacketsInside(s, at, n - 1);
      var e := PacketsEnd(s, at, n - 1);
      if e + 6 <= |s| {
        SliceOf(s, e, 2, 6);
        var size := FromLittleEndian(s[e + 2..e + 6]);
        if e + 6 + size <= |s| {
          assert s[e..][6 + size..] == s[e + 6 + size..];
        }
      }
    }
  }

  /** Reading goes past the end exactly if the count is cut off, or its links or packets end beyond the buffer. */
  lemma PastTheEndIff(s: seq<Byte>, old_: Message)
    ensures Parse(s, old_).PastTheEnd? <==> !ReadsInside(s)
  {
    if |s| >= FIXED_SIZE + 4 {
      SliceOf(s, FIXED_SIZE, 0, 4);
      var n := FromLittleEndian(s[FIXED_SIZE..FIXED_SIZE + 4]);
      assert s[FIXED_SIZE..][4..] == s[FIXED_SIZE + 4..];
      LinksInside(s[FIXED_SIZE + 4..], n);
      PacketsInside(s, FIXED_SIZE + 4, n);
    }
  }

  lemma SliceOf(buffer: seq<Byte>, offset: nat, a: nat, b: nat)
    requires a <= b && offset + b <= |buffer|
    ensures buffer[offset..][a..b] == buffer[offset + a..offset + b]
  {
  }

  // ---------------------------------------------------------------------------------------------
  // The class
  // ---------------------------------------------------------------------------------------------

  class RicControlMessage {
    var kind: Byte
    var ueId: nat
    var frameId: nat
    var timestamp: nat
    var links: seq<LinkControl>
    var packets: seq<PacketData>

    function State(): Message
      reads this
    {
      Message(kind, ueId, frameId, timestamp, links, packets)
    }

    method Serialize() returns (buffer: seq<Byte>)
      ensures buffer == Encode(State())
    {
      buffer := [kind] + LittleEndian(ueId, 4) + LittleEndian(frameId, 4) + LittleEndian(timestamp, 8);
      if kind == LINK_ALLOCATION {
        buffer := buffer + LittleEndian(|links|, 4);
        ghost var before := buffer;
        assert before + [] == before;
        for i := 0 to |links|
          invariant buffer == before + EncodeLinks(links[..i])
        {
          assert links[..i + 1][..i] == links[..i];
          buffer := buffer + (LittleEndian(links[i].linkId, 4) + LittleEndian(links[i].ratio, 8));
        }
        assert links[..|links|] == links;
      } else if kind == PDCP_PACKETS {
        buffer := buffer + LittleEndian(|packets|, 4);
        ghost var before := buffer;
        assert before + [] == before;
        for i := 0 to |packets|
          invariant buffer == before + EncodePackets(packets[..i])
        {
          assert packets[..i + 1][..i] == packets[..i];
          buffer := buffer + (LittleEndian(packets[i].sn, 2) + LittleEndian(|packets[i].data|, 4) + packets[i].data);
        }
        assert packets[..|packets|] == packets;
      }
    }

    /** Reading is defined only for buffers whose counts and sizes stay inside. */
    method Deserialize(buffer: seq<Byte>) returns (ok: bool)
      requires ReadsInside(buffer)
      modifies this
      ensures ok <==> Parse(buffer, old(State())).Parsed?
      ensures ok ==> State() == Parse(buffer, old(State())).message
      ensures !ok ==> State() == old(State())
    {
      PastTheEndIff(buffer, State());
      if |buffer| < FIXED_SIZE {
        return false;
      }
      kind := buffer[0];
      ueId := FromLittleEndian(buffer[1..5]);
      frameId := FromLittleEndian(buffer[5..9]);
      timestamp := FromLittleEndian(buffer[9..17]);
      if kind == LINK_ALLOCATION {
        links := ParseLinks(buffer, FIXED_SIZE);
      } else if kind == PDCP_PACKETS {
        packets := ParsePackets(buffer, FIXED_SIZE);
      }
      return true;
    }
  }

  method ParseLinks(buffer: seq<Byte>, at: nat) returns (ls: seq<LinkControl>)
    requires at <= |buffer| && ReadCount(buffer[at..]).Got?
    requires var c := ReadCount(buffer[at..]); ReadLinks(c.rest, c.value).Got?
    ensures var c := ReadCount(buffer[at..]); ls == ReadLinks(c.rest, c.value).value
  {
    var n := FromLittleEndian(buffer[at..at + 4]);
    assert buffer[at..][0..4] == buffer[at..at + 4] && buffer[at..][4..] == buffer[at + 4..];
    var offset: nat := at + 4;
    ls := [];
    for i := 0 to n
      invariant offset <= |buffer| && ReadLinks(buffer[at + 4..], i) == Got(ls, buffer[offset..])
    {
      MoreLinks(buffer[at + 4..], i, n);
      ghost var rest := buffer[offset..];
      SliceOf(buffer, offset, 0, 4);
      SliceOf(buffer, offset, 4, 12);
      ls := ls + [LinkControl(FromLittleEndian(buffer[offset..offset + 4]),
                              FromLittleEndian(buffer[offset + 4..offset + 12]))];
      offset := offset + 12;
      assert rest[12..] == buffer[offset..];
    }
  }

  /** If `n` items can be read, so can item `i < n`. */
  lemma {:induction false} MoreLinks(s: seq<Byte>, i: nat, n: nat)
    requires i < n && ReadLinks(s, n).Got?
    ensures ReadLinks(s, i).Got? && ReadLink(ReadLinks(s, i).rest).Got?
    decreases n
  {
    if i < n - 1 {
      MoreLinks(s, i, n - 1);
    }
  }

  method ParsePackets(buffer: seq<Byte>, at: nat) returns (ps: seq<PacketData>)
    requires at <= |buffer| && ReadCount(buffer[at..]).Got?
    requires var c := ReadCount(buffer[at..]); ReadPackets(c.rest, c.value).Got?
    ensures var c := ReadCount(buffer[at..]); ps == ReadPackets(c.rest, c.value).value
  {
    var n := FromLittleEndian(buffer[at..at + 4]);
    assert buffer[at..][0..4] == buffer[at..at + 4] && buffer[at..][4..] == buffer[at + 4..];
    var offset: nat := at + 4;
    ps := [];
    for i := 0 to n
      invariant offset <= |buffer| && ReadPackets(buffer[at + 4..], i) == Got(ps, buffer[offset..])
    {
      MorePackets(buffer[at + 4..], i, n);
      ghost var rest := buffer[offset..];
      assert ReadPacket(rest).Got? && |rest| >= 6;
      SliceOf(buffer, offset, 0, 2);
      SliceOf(buffer, offset, 2, 6);
      var sn := FromLittleEndian(buffer[offset..offset + 2]);
      var size := FromLittleEndian(buffer[offset + 2..offset + 6]);
      SliceOf(buffer, offset, 6, 6 + size);
      var p := PacketData(sn, buffer[offset + 6..offset + 6 + size]);
      assert rest[6 + size..] == buffer[offset + 6 + size..];
      NextPacket(buffer[at + 4..], i, ps, rest, p, buffer[offset + 6 + size..]);
      ps := ps + [p];
      offset := offset + 6 + size;
    }
  }

  lemma NextPacket(s: seq<Byte>, i: nat, ps: seq<PacketData>, rest: seq<Byte>, p: PacketData, rest': seq<Byte>)
    requires ReadPackets(s, i) == Got(ps, rest) && ReadPacket(rest) == Got(p, rest')
    ensures ReadPackets(s, i + 1) == Got(ps + [p], rest')
  {
  }

  lemma {:induction false} MorePackets(s: seq<Byte>, i: nat, n: nat)
    requires i < n && ReadPackets(s, n).Got?
    ensures ReadPackets(s, i).Got? && ReadPacket(ReadPackets(s, i).rest).Got?
    decreases n
  {
    if i < n - 1 {
      MorePackets(s, i, n - 1);
    }
  }

  // ---------------------------------------------------------------------------------------------
  // The round trip
  // ---------------------------------------------------------------------------------------------

  predicate LinkFits(l: LinkControl) {
    l.linkId < U32 && l.ratio < U64
  }

  predicate PacketFits(p: PacketData) {
    p.sn < U16 && |p.data| < U32
  }

  predicate Fits(m: Message) {
    && m.ueId < U32 && m.frameId < U32 && m.timestamp < U64
    && |m.links| < U32 && |m.packets| < U32
    && (forall i :: 0 <= i < |m.links| ==> LinkFits(m.links[i]))
    && (forall i :: 0 <= i < |m.packets| ==> PacketFits(m.packets[i]))
  }

  lemma Little4(n: nat)
    requires n < U32
    ensures FromLittleEndian(LittleEndian(n, 4)) == n
  {
    Width4();
    LittleEndianRoundTrip(n, 4);
  }

  lemma Little8(n: nat)
    requires n < U64
    ensures FromLittleEndian(LittleEndian(n, 8)) == n
  {
    Width8();
    LittleEndianRoundTrip(n, 8);
  }

  lemma Little2(n: nat)
    requires n < U16
    ensures FromLittleEndian(LittleEndian(n, 2)) == n
  {
    Width2();
    LittleEndianRoundTrip(n, 2);
  }

  lemma LinkBack(l: LinkControl, rest: seq<Byte>)
    requires LinkFits(l)
    ensures ReadLink(EncodeLink(l) + rest) == Got(l, rest)
  {
    Little4(l.linkId);
    Little8(l.ratio);
    var s := EncodeLink(l) + rest;
    assert s[0..4] == LittleEndian(l.linkId, 4) && s[4..12] == LittleEndian(l.ratio, 8) && s[12..] == rest;
  }

  lemma {:induction false} LinksBack(ls: seq<LinkControl>, rest: seq<Byte>)
    requires forall i :: 0 <= i < |ls| ==> LinkFits(ls[i])
    ensures ReadLinks(EncodeLinks(ls) + rest, |ls|) == Got(ls, rest)
    decreases |ls|
  {
    if ls == [] {
      assert EncodeLinks(ls) + rest == rest;
    } else {
      var k := |ls| - 1;
      assert EncodeLinks(ls) + rest == EncodeLinks(ls[..k]) + (EncodeLink(ls[k]) + rest);
      LinksBack(ls[..k], EncodeLink(ls[k]) + rest);
      LinkBack(ls[k], rest);
      assert ls[..k] + [ls[k]] == ls;
    }
  }

  lemma PacketBack(p: PacketData, rest: seq<Byte>)
    requires PacketFits(p)
    ensures ReadPacket(EncodePacket(p) + rest) == Got(p, rest)
  {
    Little2(p.sn);
    Little4(|p.data|);
    var s := EncodePacket(p) + rest;
    assert s[0..2] == LittleEndian(p.sn, 2) && s[2..6] == LittleEndian(|p.data|, 4);
    assert s[6..6 + |p.data|] == p.data && s[6 + |p.data|..] == rest;
  }

  lemma {:induction false} PacketsBack(ps: seq<PacketData>, rest: seq<Byte>)
    requires forall i :: 0 <= i < |ps| ==> PacketFits(ps[i])
    ensures ReadPackets(EncodePackets(ps) + rest, |ps|) == Got(ps, rest)
    decreases |ps|
  {
    if ps == [] {
      assert EncodePackets(ps) + rest == rest;
    } else {
      var k := |ps| - 1;
      assert EncodePackets(ps) + rest == EncodePackets(ps[..k]) + (EncodePacket(ps[k]) + rest);
      PacketsBack(ps[..k], EncodePacket(ps[k]) + rest);
      PacketBack(ps[k], rest);
      assert ps[..k] + [ps[k]] == ps;
    }
  }

  lemma FixedBack(m: Message, rest: seq<Byte>, old_: Message)
    requires Fits(m)
    ensures ReadFixed(EncodeFixed(m) + rest, old_)
         == old_.(kind := m.kind, ueId := m.ueId, frameId := m.frameId, timestamp := m.timestamp)
    ensures (EncodeFixed(m) + rest)[FIXED_SIZE..] == rest
  {
    Little4(m.ueId);
    Little4(m.frameId);
    Little8(m.timestamp);
    var s := EncodeFixed(m) + rest;
    assert s[1..5] == LittleEndian(m.ueId, 4) && s[5..9] == LittleEndian(m.frameId, 4)
        && s[9..17] == LittleEndian(m.timestamp, 8);
  }

  lemma CountBack(n: nat, rest: seq<Byte>)
    requires n < U32
    ensures ReadCount(LittleEndian(n, 4) + rest) == Got(n, rest)
  {
    Little4(n);
    var s := LittleEndian(n, 4) + rest;
    assert s[0..4] == LittleEndian(n, 4) && s[4..] == rest;
  }

  /**
   For lists of any length, with packets of any length: reading what was written stays inside the buffer and
   recovers every field that the message's type carries.
  */
  lemma MessageRoundTrip(m: Message, old_: Message)
    requires Fits(m)
    ensures Parse(Encode(m), old_) ==
            Parsed(Message(m.kind, m.ueId, m.frameId, m.timestamp,
                           if m.kind == LINK_ALLOCATION then m.links else old_.links,
                           if m.kind == PDCP_PACKETS then m.packets else old_.packets))
    ensures ReadsInside(Encode(m))
  {
    PastTheEndIff(Encode(m), old_);
    var body := Encode(m)[FIXED_SIZE..];
    assert Encode(m) == EncodeFixed(m) + body;
    FixedBack(m, body, old_);
    if m.kind == LINK_ALLOCATION {
      CountBack(|m.links|, EncodeLinks(m.links));
      LinksBack(m.links, []);
      assert EncodeLinks(m.links) + [] == EncodeLinks(m.links);
    } else if m.kind == PDCP_PACKETS {
      CountBack(|m.packets|, EncodePackets(m.packets));
      PacketsBack(m.packets, []);
      assert EncodePackets(m.packets) + [] == EncodePackets(m.packets);
    }
  }

  /** The length test covers the fixed part alone: a link count in a buffer that ends there is not caught. */
  lemma CountIsNotChecked(m: Message, old_: Message, n: nat)
    requires Fits(m) && m.kind == LINK_ALLOCATION && 0 < n < U32
    ensures Parse(EncodeFixed(m) + LittleEndian(n, 4), old_).PastTheEnd?
  {
    var s := EncodeFixed(m) + LittleEndian(n, 4);
    Little4(n);
    assert s[FIXED_SIZE..FIXED_SIZE + 4] == LittleEndian(n, 4);
    PastTheEndIff(s, old_);
  }

  /** Nor is the size of a packet that announces more bytes than the buffer has. */
  lemma SizeIsNotChecked(m: Message, old_: Message, sn: nat, size: nat)
    requires Fits(m) && m.kind == PDCP_PACKETS && sn < U16 && 0 < size < U32
    ensures Parse(EncodeFixed(m) + LittleEndian(1, 4) + LittleEndian(sn, 2) + LittleEndian(size, 4), old_).PastTheEnd?
  {
    var s := EncodeFixed(m) + LittleEndian(1, 4) + LittleEndian(sn, 2) + LittleEndian(size, 4);
    Little4(1);
    Little4(size);
    var at := FIXED_SIZE + 4;
    assert s[FIXED_SIZE..at] == LittleEndian(1, 4) && s[at + 2..at + 6] == LittleEndian(size, 4);
    assert PacketsEnd(s, at, 0) == at;
    assert PacketsEnd(s, at, 1) == at + 6 + size;
    PastTheEndIff(s, old_);
  }
}
