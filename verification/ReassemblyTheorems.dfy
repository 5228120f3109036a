/** When the receiver hands on a packet that was cut into segments, over every run of arrivals and clean-ups. */
module ReassemblyTheorems {
  import opened Options
  import opened Bytes
  import opened RlcSegmentation
  import opened RlcReassembly
  import opened ReassemblyRounds

  // ---------------------------------------------------------------------------------------------
  // The context of a packet
  // ---------------------------------------------------------------------------------------------

  /** A packet as the sender cuts it: its id is already masked, and the number of segments fits 16 bits. */
  ghost predicate Whole(t: Transfer) {
    && t.Valid() && t.id < SEQ_NUM_MASK && t.packet != []
    && |t.wire| == Count(|t.packet|, t.max) < U16
  }

  function Flagged(flags: seq<bool>): set<nat> {
    set i: nat | i < |flags| && flags[i]
  }

  /** The context holds exactly the segments `have` of the packet. */
  ghost predicate Held(c: Context, t: Transfer, have: set<nat>)
    requires t.max > 0
  {
    && c.total == |c.flags| == |t.wire| && |c.data| == |t.packet|
    && have == Flagged(c.flags) && c.received == |have|
    && forall i :: i in have ==> InPlace(c.data, t.packet, t.max, i)
  }

  ghost predicate Holds(cs: Contexts, t: Transfer, have: set<nat>)
    requires t.max > 0
  {
    && (t.id in cs <==> have != {})
    && (t.id in cs ==> Held(cs[t.id], t, have))
  }

  lemma WholeHasSegments(t: Transfer)
    requires Whole(t)
    ensures |t.wire| > 0
  {
    CountZero(|t.packet|, t.max);
  }

  lemma FirstByte(id: nat)
    requires id < SEQ_NUM_MASK
    ensures BigEndian(id, 4)[0] == 0
  {
    var n := id / 256;
    assert n / 256 == 0;
    assert BigEndian(0, 1) == [0];
    assert BigEndian(0, 2)[0] == 0;
    assert BigEndian(n, 3)[0] == 0;
  }

  lemma WireIsNoStatus(t: Transfer, i: nat)
    requires Whole(t) && i < |t.wire|
    ensures |t.wire[i]| >= HEADER_SIZE && t.wire[i][0] == 0
  {
    FirstByte(t.id);
    PieceInside(|t.packet|, t.max, i);
    assert t.segments[i] == SegmentAt(t.packet, t.max, t.id, Total(|t.packet|, t.max), i);
    var s := Stamp(t.segments[i], t.polls[i], t.queueId, t.priority);
    assert t.wire[i][0] == Encode(s.header)[0] == BigEndian(t.id, 4)[0];
  }

  /** The receiver takes the `i`-th PDU on the wire for a segment of the packet. */
  lemma WireIsSegment(t: Transfer, i: nat)
    requires Whole(t) && i < |t.wire|
    ensures IsSegment(t.wire[i]) && MaskedId(Deserialize(t.wire[i]).header) == t.id
  {
    WireIsNoStatus(t, i);
    WireMasked(t, i);
  }

  lemma WireMasked(t: Transfer, i: nat)
    requires Whole(t) && i < |t.wire|
    ensures |t.wire[i]| >= HEADER_SIZE && MaskedId(Deserialize(t.wire[i]).header) == t.id
  {
    var id := WireId(t, i);
    assert id % SEQ_NUM_MASK == id;
  }

  lemma WireId(t: Transfer, i: nat) returns (id: nat)
    requires Whole(t) && i < |t.wire|
    ensures |t.wire[i]| >= HEADER_SIZE && id == Deserialize(t.wire[i]).header.packetId == t.id
  {
    WireSegment(t, i);
    id := t.id;
  }

  lemma NewIsHeld(t: Transfer, h: Header, now: int)
    requires Whole(t) && h.originalSize == |t.packet| && h.total == |t.wire|
    ensures Held(NewContext(h, now), t, {})
  {
    assert Flagged(NewContext(h, now).flags) == {};
  }

  lemma TakesIffMissing(c: Context, t: Transfer, have: set<nat>, i: nat)
    requires Whole(t) && Held(c, t, have) && i < |t.wire|
    ensures Takes(c, Deserialize(t.wire[i])) <==> i !in have
  {
    WireSegment(t, i);
  }

  lemma FlaggedMore(flags: seq<bool>, i: nat)
    requires i < |flags| && !flags[i]
    ensures Flagged(flags[i := true]) == Flagged(flags) + {i} && i !in Flagged(flags)
  {
  }

  lemma {:induction false} FlaggedIsFew(flags: seq<bool>)
    ensures Flagged(flags) <= All(|flags|) && |Flagged(flags)| <= |flags|
    ensures |Flagged(flags)| == |flags| <==> Flagged(flags) == All(|flags|)
  {
    AllSize(|flags|);
    SubsetSize(Flagged(flags), All(|flags|));
  }

  lemma PutKeepsPieces(c: Context, t: Transfer, i: nat, now: int, j: nat)
    requires Whole(t) && |c.data| == |t.packet| && i < |t.wire| && Takes(c, Deserialize(t.wire[i]))
    ensures var data := Put(c, Deserialize(t.wire[i]), now).data;
            && |data| == |t.packet| && InPlace(data, t.packet, t.max, i)
            && (InPlace(c.data, t.packet, t.max, j) ==> InPlace(data, t.packet, t.max, j))
  {
    WireSegment(t, i);
    WritePiece(c.data, t.packet, t.max, i, j);
  }

  lemma PutIsHeld(c: Context, t: Transfer, have: set<nat>, i: nat, now: int)
    requires Whole(t) && Held(c, t, have) && i < |t.wire| && i !in have
    ensures Takes(c, Deserialize(t.wire[i]))
    ensures Held(Put(c, Deserialize(t.wire[i]), now), t, have + {i})
  {
    TakesIffMissing(c, t, have, i);
    WireNumber(t, i);
    var c' := Put(c, Deserialize(t.wire[i]), now);
    assert c'.flags == c.flags[i := true];
    CountMore(c.flags, i);
    forall j | j in have + {i} ensures |c'.data| == |t.packet| && InPlace(c'.data, t.packet, t.max, j) {
      PutKeepsPieces(c, t, i, now, j);
    }
  }

  lemma WireNumber(t: Transfer, i: nat)
    requires Whole(t) && i < |t.wire|
    ensures Deserialize(t.wire[i]).header.number == i
  {
    WireSegment(t, i);
  }

  lemma CountMore(flags: seq<bool>, i: nat)
    requires i < |flags| < U16 && !flags[i]
    ensures Flagged(flags[i := true]) == Flagged(flags) + {i}
    ensures |Flagged(flags) + {i}| == (|Flagged(flags)| + 1) % U16
  {
    FlaggedMore(flags, i);
    FlaggedIsFew(flags[i := true]);
  }

  lemma AllHeld(c: Context, t: Transfer, have: set<nat>)
    requires Whole(t) && Held(c, t, have)
    ensures c.received == c.total <==> have == All(|t.wire|)
    ensures have == All(|t.wire|) ==> c.data == t.packet
  {
    FlaggedIsFew(c.flags);
    if have == All(|t.wire|) {
      AllPieces(c.data, t.packet, t.max);
    }
  }

  lemma SegmentStep(cs: Contexts, t: Transfer, have: set<nat>, i: nat, now: int)
    requires Whole(t) && Holds(cs, t, have) && have < All(|t.wire|) && i < |t.wire| && !Refused(cs, t.id)
    ensures var (cs', out) := Process(cs, Deserialize(t.wire[i]), now);
            var now' := have + {i};
            if now' == All(|t.wire|) then out == Some(t.packet) && Holds(cs', t, {})
            else out == None && Holds(cs', t, now')
  {
    WireSegment(t, i);
    WireIsSegment(t, i);
    var s := Deserialize(t.wire[i]);
    var c := Open(cs, s.header, now);
    if t.id !in cs {
      NewIsHeld(t, s.header, now);
    }
    TakesIffMissing(c, t, have, i);
    if i in have {
      assert have + {i} == have;
    } else {
      PutIsHeld(c, t, have, i, now);
      AllHeld(Put(c, s, now), t, have + {i});
    }
  }

  // ---------------------------------------------------------------------------------------------
  // Runs
  // ---------------------------------------------------------------------------------------------

  datatype Event = Arrive(bytes: seq<Byte>, now: int) | Tidy(now: int)

  predicate Sound(e: Event) {
    e.Arrive? ==> Readable(e.bytes)
  }

  function Next(timeout: nat, cs: Contexts, e: Event): Contexts
    requires Sound(e)
  {
    match e
    case Arrive(bytes, now) => Receive(cs, bytes, now).0
    case Tidy(now) => Cleanup(timeout, cs, now)
  }

  /** What the event hands on. */
  function Output(cs: Contexts, e: Event): Option<seq<Byte>>
    requires Sound(e)
  {
    match e
    case Arrive(bytes, now) => Receive(cs, bytes, now).1
    case Tidy(_) => None
  }

  ghost predicate IsRun(timeout: nat, css: seq<Contexts>, es: seq<Event>) {
    && |css| == |es| + 1 && css[0] == map[]
    && forall k :: 0 <= k < |es| ==> Sound(es[k]) && css[k + 1] == Next(timeout, css[k], es[k])
  }

  predicate Concerns(e: Event, t: Transfer) {
    e.Arrive? && IsSegment(e.bytes) && MaskedId(Deserialize(e.bytes).header) == t.id
  }

  /** From `from` to `to`, whatever arrives under the packet's id is one of its segments. */
  ghost predicate Only(es: seq<Event>, t: Transfer, from: nat, to: nat)
    requires from <= to <= |es|
  {
    forall k :: from <= k < to && Concerns(es[k], t) ==> es[k].bytes in t.wire
  }

  /** An event as the packet sees it; a segment that finds too many contexts does not count. */
  function ActOf(timeout: nat, cs: Contexts, e: Event, t: Transfer): seq<Act> {
    if Concerns(e, t) then
      if |t.wire| > 1 && Refused(cs, t.id) then [] else [Seg(Deserialize(e.bytes).header.number)]
    else if e.Tidy? && t.id in cs && Expired(timeout, cs[t.id], e.now) then [Lost]
    else []
  }

  function Acts(timeout: nat, css: seq<Contexts>, es: seq<Event>, t: Transfer, from: nat, to: nat): seq<Act>
    requires from <= to <= |es| < |css|
  {
    if from == to then []
    else Acts(timeout, css, es, t, from, to - 1) + ActOf(timeout, css[to - 1], es[to - 1], t)
  }

  predicate Delivers(cs: Contexts, e: Event, t: Transfer) {
    Sound(e) && Concerns(e, t) && Output(cs, e).Some?
  }

  function Deliveries(css: seq<Contexts>, es: seq<Event>, t: Transfer, from: nat, to: nat): nat
    requires from <= to <= |es| < |css|
  {
    if from == to then 0
    else Deliveries(css, es, t, from, to - 1) + if Delivers(css[to - 1], es[to - 1], t) then 1 else 0
  }

  lemma OtherStep(timeout: nat, cs: Contexts, e: Event, t: Transfer, have: set<nat>)
    requires Whole(t) && Holds(cs, t, have) && Sound(e) && !Concerns(e, t)
    ensures Holds(Next(timeout, cs, e), t, if ActOf(timeout, cs, e, t) == [Lost] then {} else have)
    ensures !Delivers(cs, e, t)
  {
  }

  /** One segment of the packet arrives. */
  lemma ArrivalStep(timeout: nat, cs: Contexts, e: Event, t: Transfer, have: set<nat>, i: nat)
    requires Whole(t) && Holds(cs, t, have) && have < All(|t.wire|) && Sound(e)
    requires e.Arrive? && i < |t.wire| && e.bytes == t.wire[i]
    ensures Concerns(e, t)
    ensures var now' := have + {i};
            var act := ActOf(timeout, cs, e, t);
            && act == (if |t.wire| > 1 && Refused(cs, t.id) then [] else [Seg(i)])
            && Output(cs, e) == (if act != [] && now' == All(|t.wire|) then Some(t.packet) else None)
            && Holds(Next(timeout, cs, e), t, if act == [] then have else if now' == All(|t.wire|) then {} else now')
  {
    WireSegment(t, i);
    WireIsSegment(t, i);
    if |t.wire| == 1 {
      SingleStep(cs, e, t, have, i);
    } else if !Refused(cs, t.id) {
      SegmentStep(cs, t, have, i, e.now);
    }
  }

  /** A packet in one segment is handed on whenever it arrives. */
  lemma SingleStep(cs: Contexts, e: Event, t: Transfer, have: set<nat>, i: nat)
    requires Whole(t) && have < All(|t.wire|) && Sound(e)
    requires e.Arrive? && i < |t.wire| == 1 && e.bytes == t.wire[i]
    ensures have == {} && have + {i} == All(1)
    ensures Receive(cs, e.bytes, e.now) == (cs, Some(t.packet))
  {
    WireSegment(t, i);
    WireIsSegment(t, i);
    PieceInside(|t.packet|, t.max, 0);
    assert All(1) == {0};
    assert t.packet[0..|t.packet|] == t.packet;
  }

  /** The context holds what the acts collect, and the packet was handed on as often as they complete it. */
  ghost predicate Matches(acts: seq<Act>, cs: Contexts, delivered: nat, t: Transfer)
    requires t.max > 0
  {
    && InRange(acts, |t.wire|) && Have(acts, |t.wire|) < All(|t.wire|)
    && Holds(cs, t, Have(acts, |t.wire|))
    && delivered == Times(acts, |t.wire|)
  }

  ghost predicate MatchesAt(timeout: nat, css: seq<Contexts>, es: seq<Event>, t: Transfer, from: nat, k: nat)
    requires from <= k <= |es| < |css| && t.max > 0
  {
    Matches(Acts(timeout, css, es, t, from, k), css[k], Deliveries(css, es, t, from, k), t)
  }

  lemma {:induction false} RunMatches(
      timeout: nat, css: seq<Contexts>, es: seq<Event>, t: Transfer, from: nat, to: nat)
    requires IsRun(timeout, css, es) && from <= to <= |es| && Whole(t)
    requires t.id !in css[from] && Only(es, t, from, to)
    ensures MatchesAt(timeout, css, es, t, from, to)
  {
    if from == to {
      FirstMatches(timeout, css, es, t, from, to);
    } else {
      var k := to - 1;
      RunMatches(timeout, css, es, t, from, k);
      NextMatches(timeout, css, es, t, from, k, to);
    }
  }

  lemma RunHolds(timeout: nat, css: seq<Contexts>, es: seq<Event>, t: Transfer, from: nat, to: nat, acts: seq<Act>)
    requires IsRun(timeout, css, es) && from <= to <= |es| && Whole(t)
    requires t.id !in css[from] && Only(es, t, from, to) && acts == Acts(timeout, css, es, t, from, to)
    ensures Have(acts, |t.wire|) < All(|t.wire|) && Holds(css[to], t, Have(acts, |t.wire|))
  {
    RunMatches(timeout, css, es, t, from, to);
  }

  lemma FirstMatches(timeout: nat, css: seq<Contexts>, es: seq<Event>, t: Transfer, from: nat, to: nat)
    requires from == to <= |es| < |css| && Whole(t) && t.id !in css[from]
    ensures MatchesAt(timeout, css, es, t, from, to)
  {
    StartMatches(css[from], t);
  }

  lemma NextMatches(timeout: nat, css: seq<Contexts>, es: seq<Event>, t: Transfer, from: nat, k: nat, to: nat)
    requires IsRun(timeout, css, es) && from <= k < |es| && to == k + 1
    requires Whole(t) && MatchesAt(timeout, css, es, t, from, k)
    requires Concerns(es[k], t) ==> es[k].bytes in t.wire
    ensures MatchesAt(timeout, css, es, t, from, to)
  {
    ActsNext(timeout, css, es, t, from, k);
    RunStep(timeout, css, es, t, k, Acts(timeout, css, es, t, from, k), Deliveries(css, es, t, from, k));
  }

  lemma ActsNext(timeout: nat, css: seq<Contexts>, es: seq<Event>, t: Transfer, from: nat, k: nat)
    requires from <= k < |es| < |css|
    ensures Acts(timeout, css, es, t, from, k + 1)
         == Acts(timeout, css, es, t, from, k) + ActOf(timeout, css[k], es[k], t)
    ensures Deliveries(css, es, t, from, k + 1)
         == Deliveries(css, es, t, from, k) + if Delivers(css[k], es[k], t) then 1 else 0
  {
  }

  lemma StartMatches(cs: Contexts, t: Transfer)
    requires Whole(t) && t.id !in cs
    ensures Matches([], cs, 0, t)
  {
    WholeHasSegments(t);
    HaveIsPartial([], |t.wire|);
  }

  lemma RunStep(timeout: nat, css: seq<Contexts>, es: seq<Event>, t: Transfer, k: nat, acts: seq<Act>, delivered: nat)
    requires IsRun(timeout, css, es) && k < |es| && Whole(t) && Matches(acts, css[k], delivered, t)
    requires Concerns(es[k], t) ==> es[k].bytes in t.wire
    ensures Matches(acts + ActOf(timeout, css[k], es[k], t), css[k + 1],
                    delivered + if Delivers(css[k], es[k], t) then 1 else 0, t)
  {
    StepMatches(timeout, css[k], es[k], t, acts, delivered);
  }

  lemma Appended(acts: seq<Act>, a: Act, n: nat)
    requires InRange(acts, n) && (a.Seg? ==> a.i < n)
    ensures InRange(acts + [a], n)
    ensures Have(acts + [a], n) == if a.Lost? || Have(acts, n) + {a.i} == All(n) then {} else Have(acts, n) + {a.i}
    ensures Times(acts + [a], n) == Times(acts, n) + if a.Seg? && Have(acts, n) + {a.i} == All(n) then 1 else 0
  {
    assert (acts + [a])[..|acts|] == acts;
  }

  lemma StepMatches(timeout: nat, cs: Contexts, e: Event, t: Transfer, acts: seq<Act>, delivered: nat)
    requires Whole(t) && Sound(e) && Matches(acts, cs, delivered, t)
    requires Concerns(e, t) ==> e.bytes in t.wire
    ensures Matches(acts + ActOf(timeout, cs, e, t), Next(timeout, cs, e),
                    delivered + if Delivers(cs, e, t) then 1 else 0, t)
  {
    var act, n := ActOf(timeout, cs, e, t), |t.wire|;
    WholeHasSegments(t);
    if Concerns(e, t) {
      var i :| 0 <= i < n && e.bytes == t.wire[i];
      WireSegment(t, i);
      ArrivalStep(timeout, cs, e, t, Have(acts, n), i);
    } else {
      OtherStep(timeout, cs, e, t, Have(acts, n));
    }
    if act != [] {
      Appended(acts, act[0], n);
      HaveIsPartial(acts + act, n);
    } else {
      assert acts + act == acts;
    }
  }

  /**
   The packet is handed on exactly at the arrival of its last missing segment, complete and correct, and nothing is at
   any other arrival.
  */
  lemma HandedOnAtLastMissing(
      timeout: nat, css: seq<Contexts>, es: seq<Event>, t: Transfer, from: nat, k: nat, i: nat)
    requires IsRun(timeout, css, es) && from <= k < |es| && Whole(t)
    requires t.id !in css[from] && Only(es, t, from, k)
    requires es[k].Arrive? && i < |t.wire| && es[k].bytes == t.wire[i]
    ensures var have := Have(Acts(timeout, css, es, t, from, k), |t.wire|);
            Output(css[k], es[k]) == if (|t.wire| == 1 || !Refused(css[k], t.id)) && have + {i} == All(|t.wire|)
                                     then Some(t.packet) else None
  {
    RunMatches(timeout, css, es, t, from, k);
    ArrivalStep(timeout, css[k], es[k], t, Have(Acts(timeout, css, es, t, from, k), |t.wire|), i);
  }

  /**
   The packet is handed on exactly once if and only if all its segments are taken in between two losses, and they are
   not all taken again after that.
  */
  lemma HandedOnOnceIff(timeout: nat, css: seq<Contexts>, es: seq<Event>, t: Transfer, from: nat, to: nat)
    requires IsRun(timeout, css, es) && from <= to <= |es| && Whole(t)
    requires t.id !in css[from] && Only(es, t, from, to)
    ensures var acts, n := Acts(timeout, css, es, t, from, to), |t.wire|;
            && (Deliveries(css, es, t, from, to) == 1 <==> OneWindow(acts, n) && !TwoWindows(acts, n))
            && (Deliveries(css, es, t, from, to) == 0 <==> !OneWindow(acts, n))
  {
    WholeHasSegments(t);
    RunMatches(timeout, css, es, t, from, to);
    ExactlyOnceIff(Acts(timeout, css, es, t, from, to), |t.wire|);
    OnceIff(Acts(timeout, css, es, t, from, to), |t.wire|);
  }

  // ---------------------------------------------------------------------------------------------
  // A context that is already open when its id is used again
  // ---------------------------------------------------------------------------------------------

  /** In every run: as many segments are counted as flags are set, and a 16-bit number of them is expected. */
  ghost predicate Books(c: Context) {
    && c.total == |c.flags| < U16 && c.received == |Flagged(c.flags)| && c.originalSize == |c.data|
  }

  ghost predicate AllBooks(cs: Contexts) {
    forall id :: id in cs ==> Books(cs[id])
  }

  lemma TwoBytes(s: seq<Byte>)
    requires |s| == 2
    ensures FromBigEndian(s) < U16
  {
    assert FromBigEndian(s) == 256 * FromBigEndian(s[..1]) + s[1];
    assert FromBigEndian(s[..1]) == 256 * FromBigEndian(s[..1][..0]) + s[0];
  }

  lemma NewBooks(h: Header, now: int)
    requires h.total < U16
    ensures Books(NewContext(h, now))
  {
    assert Flagged(NewContext(h, now).flags) == {};
  }

  lemma PutBooks(c: Context, s: Segment, now: int)
    requires Books(c) && Takes(c, s)
    ensures Books(Put(c, s, now))
  {
    CountMore(c.flags, s.header.number);
  }

  lemma ProcessBooks(cs: Contexts, s: Segment, now: int)
    requires AllBooks(cs) && s.header.total < U16
    ensures AllBooks(Process(cs, s, now).0)
  {
    NewBooks(s.header, now);
    var c := Open(cs, s.header, now);
    if Takes(c, s) {
      PutBooks(c, s, now);
    }
  }

  lemma NextBooks(timeout: nat, cs: Contexts, e: Event)
    requires Sound(e) && AllBooks(cs)
    ensures AllBooks(Next(timeout, cs, e))
  {
    if e.Arrive? && IsSegment(e.bytes) {
      TwoBytes(e.bytes[6..8]);
      ProcessBooks(cs, Deserialize(e.bytes), e.now);
    }
  }

  lemma {:induction false} RunBooks(timeout: nat, css: seq<Contexts>, es: seq<Event>, k: nat)
    requires IsRun(timeout, css, es) && k <= |es|
    ensures AllBooks(css[k])
  {
    if k > 0 {
      var j := k - 1;
      RunBooks(timeout, css, es, j);
      assert css[j + 1] == Next(timeout, css[j], es[j]);
      NextBooks(timeout, css[j], es[j]);
    }
  }

  /** The context will not take segment `i` any more: it has it, or expects fewer. */
  predicate Closed(c: Context, i: nat) {
    i >= |c.flags| || c.flags[i]
  }

  /** Of the context's size; and if that is the packet's, with the context's bytes in the closed pieces. */
  ghost predicate Blend(p: seq<Byte>, c: Context, u: Transfer)
    requires u.max > 0
  {
    && |p| == |c.data|
    && (|p| == |u.packet| ==>
          forall i: nat :: i < |u.wire| ==> InPlace(p, if Closed(c, i) then c.data else u.packet, u.max, i))
  }

  /** `c` has grown out of `start` by segments of the packet. */
  ghost predicate Grown(start: Context, c: Context, u: Transfer)
    requires u.max > 0
  {
    && Books(c) && |c.flags| == |start.flags| && |c.data| == |start.data|
    && (forall i :: 0 <= i < |c.flags| && start.flags[i] ==> c.flags[i])
    && (|c.data| == |u.packet| ==>
          forall i: nat :: i < |u.wire| ==> InPlace(c.data, GrownFrom(start, c, u, i), u.max, i))
  }

  /** Where the bytes of piece `i` are from. */
  function GrownFrom(start: Context, c: Context, u: Transfer, i: nat): seq<Byte> {
    if i < |c.flags| && c.flags[i] && !Closed(start, i) then u.packet else start.data
  }

  lemma WritesOwnPiece(data: seq<Byte>, u: Transfer, i: nat)
    requires Whole(u) && i < |u.wire| && |data| == |u.packet|
    ensures var s := Deserialize(u.wire[i]);
            var data' := Write(data, s.header.offset, s.data);
            && InPlace(data', u.packet, u.max, i)
            && (forall b :: 0 <= b < |data| && !(i * u.max <= b < i * u.max + u.max) ==> data'[b] == data[b])
  {
    WireSegment(u, i);
    PieceInside(|u.packet|, u.max, i);
  }

  lemma OtherPieceStays(data: seq<Byte>, data': seq<Byte>, packet: seq<Byte>, max: nat, i: nat, j: nat)
    requires |data| == |data'| == |packet| && max > 0 && i != j && InPlace(data, packet, max, j)
    requires forall b :: 0 <= b < |data| && !(i * max <= b < i * max + max) ==> data'[b] == data[b]
    ensures InPlace(data', packet, max, j)
  {
    if j < i {
      MulMonotone(j + 1, i, max);
    } else {
      MulMonotone(i + 1, j, max);
    }
  }

  lemma PutPiece(start: Context, c: Context, u: Transfer, i: nat, now: int, j: nat)
    requires Whole(u) && Grown(start, c, u) && |c.data| == |u.packet| && i < |u.wire| && j < |u.wire|
    requires Takes(c, Deserialize(u.wire[i]))
    ensures var c' := Put(c, Deserialize(u.wire[i]), now);
            |c'.data| == |u.packet| && InPlace(c'.data, GrownFrom(start, c', u, j), u.max, j)
  {
    WireNumber(u, i);
    WritesOwnPiece(c.data, u, i);
    var c' := Put(c, Deserialize(u.wire[i]), now);
    if i != j {
      OtherPieceStays(c.data, c'.data, GrownFrom(start, c, u, j), u.max, i, j);
    }
  }

  lemma PutGrows(start: Context, c: Context, u: Transfer, i: nat, now: int)
    requires Whole(u) && Grown(start, c, u) && i < |u.wire| && Takes(c, Deserialize(u.wire[i]))
    ensures Grown(start, Put(c, Deserialize(u.wire[i]), now), u)
  {
    var c' := Put(c, Deserialize(u.wire[i]), now);
    PutBooks(c, Deserialize(u.wire[i]), now);
    if |c'.data| == |u.packet| {
      forall j: nat | j < |u.wire| ensures InPlace(c'.data, GrownFrom(start, c', u, j), u.max, j) {
        PutPiece(start, c, u, i, now, j);
      }
    }
  }

  lemma FullIsFlagged(c: Context, i: nat)
    requires Books(c) && c.received == c.total && i < |c.flags|
    ensures c.flags[i]
  {
    FlaggedIsFew(c.flags);
    assert i in Flagged(c.flags);
  }

  lemma FullIsBlend(start: Context, c: Context, u: Transfer)
    requires Whole(u) && Grown(start, c, u) && c.received == c.total
    ensures Blend(c.data, start, u)
  {
    if |c.data| == |u.packet| {
      forall i: nat | i < |u.wire|
        ensures InPlace(c.data, if Closed(start, i) then start.data else u.packet, u.max, i)
      {
        assert InPlace(c.data, GrownFrom(start, c, u, i), u.max, i);
        if !Closed(start, i) {
          FullIsFlagged(c, i);
        }
      }
    }
  }

  lemma WireHasData(u: Transfer, i: nat)
    requires Whole(u) && i < |u.wire|
    ensures Deserialize(u.wire[i]).data != []
  {
    WireSegment(u, i);
    PieceInside(|u.packet|, u.max, i);
  }

  lemma GrownStep(start: Context, cs: Contexts, u: Transfer, i: nat, now: int)
    requires Whole(u) && i < |u.wire| && u.id in cs && Grown(start, cs[u.id], u)
    ensures var (cs', out) := Process(cs, Deserialize(u.wire[i]), now);
            if out.Some? then out.value != [] && Blend(out.value, start, u)
            else u.id in cs' && Grown(start, cs'[u.id], u)
  {
    WireIsSegment(u, i);
    WireHasData(u, i);
    var s := Deserialize(u.wire[i]);
    if Takes(cs[u.id], s) {
      PutGrows(start, cs[u.id], u, i, now);
      var c' := Put(cs[u.id], s, now);
      if c'.received == c'.total {
        FullIsBlend(start, c', u);
      }
    }
  }

  lemma GrownArrival(start: Context, cs: Contexts, e: Event, u: Transfer, i: nat)
    requires Whole(u) && |u.wire| > 1 && u.id in cs && Grown(start, cs[u.id], u)
    requires e.Arrive? && i < |u.wire| && e.bytes == u.wire[i]
    ensures Sound(e)
    ensures if Output(cs, e).Some? then Blend(Output(cs, e).value, start, u)
            else u.id in Next(0, cs, e) && Grown(start, Next(0, cs, e)[u.id], u)
  {
    WireIsSegment(u, i);
    WireSegment(u, i);
    GrownStep(start, cs, u, i, e.now);
  }

  lemma OtherContextStays(timeout: nat, cs: Contexts, e: Event, u: Transfer)
    requires Sound(e) && u.id in cs && !Concerns(e, u) && ActOf(timeout, cs, e, u) != [Lost]
    ensures u.id in Next(timeout, cs, e) && Next(timeout, cs, e)[u.id] == cs[u.id]
  {
  }

  lemma GrownNext(timeout: nat, start: Context, cs: Contexts, e: Event, u: Transfer)
    requires Whole(u) && |u.wire| > 1 && Sound(e) && u.id in cs && Grown(start, cs[u.id], u)
    requires Concerns(e, u) ==> e.bytes in u.wire
    ensures if Delivers(cs, e, u) then Blend(Output(cs, e).value, start, u)
            else ActOf(timeout, cs, e, u) != [Lost] ==>
                   u.id in Next(timeout, cs, e) && Grown(start, Next(timeout, cs, e)[u.id], u)
  {
    if Concerns(e, u) {
      var i :| 0 <= i < |u.wire| && e.bytes == u.wire[i];
      GrownArrival(start, cs, e, u, i);
    } else if ActOf(timeout, cs, e, u) != [Lost] {
      OtherContextStays(timeout, cs, e, u);
    }
  }

  /** From `from` to `to` nothing of the id is lost or handed on. */
  ghost predicate Quiet(timeout: nat, css: seq<Contexts>, es: seq<Event>, u: Transfer, from: nat, to: nat)
    requires from <= to <= |es| < |css|
  {
    forall k :: from <= k < to ==> ActOf(timeout, css[k], es[k], u) != [Lost] && !Delivers(css[k], es[k], u)
  }

  lemma {:induction false} GrownRun(
      timeout: nat, css: seq<Contexts>, es: seq<Event>, u: Transfer, from: nat, to: nat)
    requires IsRun(timeout, css, es) && from <= to <= |es| && Whole(u) && |u.wire| > 1
    requires u.id in css[from] && Only(es, u, from, to) && Quiet(timeout, css, es, u, from, to)
    ensures u.id in css[to] && Grown(css[from][u.id], css[to][u.id], u)
  {
    if from == to {
      RunBooks(timeout, css, es, from);
    } else {
      var k := to - 1;
      GrownRun(timeout, css, es, u, from, k);
      GrownNext(timeout, css[from][u.id], css[k], es[k], u);
      assert css[k + 1] == Next(timeout, css[k], es[k]);
    }
  }

  /** The context has the packet's size, and the packet's bytes in every piece that it will not take any more. */
  ghost predicate Fitting(c: Context, u: Transfer)
    requires u.max > 0
  {
    && |c.data| == |u.packet|
    && forall i: nat :: i < |u.wire| && Closed(c, i) ==> InPlace(c.data, u.packet, u.max, i)
  }

  lemma BlendIsRightIff(p: seq<Byte>, c: Context, u: Transfer)
    requires Whole(u) && Blend(p, c, u)
    ensures p == u.packet <==> Fitting(c, u)
  {
    if |p| == |u.packet| {
      forall i: nat | i < |u.wire|
        ensures InPlace(p, u.packet, u.max, i) <==> (Closed(c, i) ==> InPlace(c.data, u.packet, u.max, i))
      {
        assert InPlace(p, if Closed(c, i) then c.data else u.packet, u.max, i);
      }
      if Fitting(c, u) {
        AllPieces(p, u.packet, u.max);
      }
    }
  }

  /**
   Whatever context is open under the packet's id: if from then on only the packet's segments arrive under it, what is
   next handed on is the packet if and only if the packet has one segment, or the context has the packet's size and, in
   every piece whose segment it will not take, the packet's bytes.
  */
  lemma OpenContextIff(timeout: nat, css: seq<Contexts>, es: seq<Event>, u: Transfer, from: nat, k: nat)
    requires IsRun(timeout, css, es) && from <= k < |es| && Whole(u) && u.id in css[from]
    requires Only(es, u, from, k + 1) && Quiet(timeout, css, es, u, from, k) && Delivers(css[k], es[k], u)
    ensures Output(css[k], es[k]).value == u.packet <==> |u.wire| == 1 || Fitting(css[from][u.id], u)
    ensures |u.wire| > 1 ==> Blend(Output(css[k], es[k]).value, css[from][u.id], u)
  {
    WholeHasSegments(u);
    if |u.wire| == 1 {
      var i :| 0 <= i < |u.wire| && es[k].bytes == u.wire[i];
      assert All(1) == {0};
      SingleStep(css[k], es[k], u, {}, i);
    } else {
      GrownRun(timeout, css, es, u, from, k);
      GrownNext(timeout, css[from][u.id], css[k], es[k], u);
      BlendIsRightIff(Output(css[k], es[k]).value, css[from][u.id], u);
    }
  }

  // ---------------------------------------------------------------------------------------------
  // Contexts left over from an old packet
  // ---------------------------------------------------------------------------------------------

  /** Two packets of the same size, cut alike, under the same id. */
  ghost predicate Alike(t: Transfer, u: Transfer) {
    Whole(t) && Whole(u) && t.id == u.id && t.max == u.max && |t.packet| == |u.packet|
  }

  lemma ClosedIffHeld(c: Context, t: Transfer, u: Transfer, have: set<nat>, i: nat)
    requires Alike(t, u) && Held(c, t, have) && i < |u.wire|
    ensures Closed(c, i) <==> i in have
  {
  }

  /**
   If the old packet was cut like the new one, what is handed on has the old packet's pieces where the context had them,
   so it is the new packet exactly if those pieces are the same.
  */
  lemma StaleContextMixes(timeout: nat, css: seq<Contexts>, es: seq<Event>, t: Transfer, u: Transfer,
                          have: set<nat>, from: nat, k: nat)
    requires IsRun(timeout, css, es) && from <= k < |es| && Alike(t, u) && |u.wire| > 1
    requires t.id in css[from] && Held(css[from][t.id], t, have)
    requires Only(es, u, from, k + 1) && Quiet(timeout, css, es, u, from, k) && Delivers(css[k], es[k], u)
    ensures var p := Output(css[k], es[k]).value;
            && |p| == |u.packet|
            && (forall i: nat :: i < |u.wire| ==> InPlace(p, if i in have then t.packet else u.packet, u.max, i))
            && (p == u.packet <==>
                  forall i :: i in have && i < |u.wire| ==> InPlace(t.packet, u.packet, u.max, i))
  {
    OpenContextIff(timeout, css, es, u, from, k);
    var c, p := css[from][t.id], Output(css[k], es[k]).value;
    forall i: nat | i < |u.wire|
      ensures InPlace(p, if i in have then t.packet else u.packet, u.max, i)
      ensures i in have ==> (InPlace(c.data, u.packet, u.max, i) <==> InPlace(t.packet, u.packet, u.max, i))
    {
      ClosedIffHeld(c, t, u, have, i);
      assert InPlace(p, if Closed(c, i) then c.data else u.packet, u.max, i);
    }
    assert Fitting(c, u) <==> forall i :: i in have && i < |u.wire| ==> InPlace(t.packet, u.packet, u.max, i);
  }

  /**
   If the new packet is cut into smaller pieces, even an equal one can go wrong: of 240 bytes cut at 120, with the first
   piece received, and cut again at 80, the last 80 bytes are handed on as zeros.
  */
  lemma SmallerCutLosesTheEnd(c: Context, u: Transfer)
    requires Whole(u) && |u.packet| == 240 && u.max == 80
    requires c.flags == [true, false] && c.data == u.packet[..120] + seq(120, i => 0)
    ensures Fitting(c, u) <==> forall b :: 160 <= b < 240 ==> u.packet[b] == 0
  {
    assert |u.wire| == 3;
    assert Closed(c, 0) && !Closed(c, 1) && Closed(c, 2);
    assert InPlace(c.data, u.packet, 80, 0);
    assert InPlace(c.data, u.packet, 80, 2) <==> forall b :: 160 <= b < 240 ==> u.packet[b] == 0;
  }

  // ---------------------------------------------------------------------------------------------
  // The timeout
  // ---------------------------------------------------------------------------------------------

  /** The event opens the context under `id` or puts a segment into it. */
  predicate Touches(cs: Contexts, e: Event, id: nat) {
    && e.Arrive? && IsSegment(e.bytes)
    && var s := Deserialize(e.bytes);
    && MaskedId(s.header) == id && !(s.header.total == 1 && s.header.number == 0)
    && !Refused(cs, id) && (id !in cs || Takes(cs[id], s))
  }

  lemma TouchedAfterStep(timeout: nat, cs: Contexts, e: Event, id: nat)
    requires Sound(e) && id in Next(timeout, cs, e)
    ensures var c := Next(timeout, cs, e)[id];
            if Touches(cs, e, id) then c.updated == e.now else id in cs && c.updated == cs[id].updated
  {
  }

  /** At `j` the context was opened or took a segment, and nothing after that up to `k`. */
  ghost predicate LastTouch(css: seq<Contexts>, es: seq<Event>, id: nat, j: nat, k: nat)
    requires k <= |es| < |css|
  {
    && j < k && Touches(css[j], es[j], id)
    && forall l :: j < l < k ==> !Touches(css[l], es[l], id)
  }

  /**
   An open context's time is that of the last event that opened it or put a segment into it, and a clean-up erases it
   exactly if that was longer ago than the timeout; segments it refused do not keep it alive.
  */
  lemma {:induction false} ExpiresAfterLastTouch(timeout: nat, css: seq<Contexts>, es: seq<Event>, id: nat, k: nat)
    returns (j: nat)
    requires IsRun(timeout, css, es) && k <= |es| && id in css[k]
    ensures LastTouch(css, es, id, j, k) && css[k][id].updated == es[j].now
    ensures k < |es| && es[k].Tidy? ==> (id !in css[k + 1] <==> es[k].now - es[j].now > timeout)
  {
    var i := k - 1;
    assert css[i + 1] == Next(timeout, css[i], es[i]);
    TouchedAfterStep(timeout, css[i], es[i], id);
    if Touches(css[i], es[i], id) {
      j := i;
    } else {
      j := ExpiresAfterLastTouch(timeout, css, es, id, i);
    }
  }
}
