/**
 Sender, links and receiver together. Links may reorder, lose and repeat: an arrival hands the receiver any packet
 forwarded so far. The assumptions are those of `Step`: payloads are not empty, fewer than 2^32 packets are sent, and an
 arriving number is below `nextExpected + 1024`.
*/
module PdcpEndToEnd {
  import opened Options
  import opened Bytes
  import opened PdcpHeader
  import opened PdcpReceiver
  import opened PdcpReorder
  import PdcpSender

  /**
   `sent` are the payloads that got a number, `wire` everything forwarded, `out` everything handed up. The rest
   is history: the numbers of `out`, the numbers that arrived, those among them that were buffered, how many
   arrivals came late, and how many timeouts had an effect.
  */
  datatype World = World(
    sender: PdcpSender.Sender, sent: seq<Payload>, wire: seq<seq<Byte>>, receiver: Receiver,
    out: seq<Payload>, nums: seq<nat>, arrived: set<nat>, accepted: set<nat>, late: nat, timeouts: nat)

  datatype Event =
    | Send(payload: Payload, input: PdcpSender.Input)
    | Command(sender: PdcpSender.Sender)    // any change of paths, duplication or re-injection
    | Arrive(k: nat)
    | Expire

  ghost predicate IsInitial(w: World) {
    && w.sender.nextSequence == 0 && w.receiver == Initial()
    && w.sent == [] && w.wire == [] && w.out == [] && w.nums == []
    && w.arrived == {} && w.accepted == {} && w.late == 0 && w.timeouts == 0
  }

  function BytesOf(log: seq<PdcpSender.Forward>): (s: seq<seq<Byte>>)
    ensures |s| == |log| && forall i :: 0 <= i < |log| ==> s[i] == log[i].bytes
  {
    if log == [] then [] else BytesOf(log[..|log| - 1]) + [log[|log| - 1].bytes]
  }

  function Range(from: nat, k: nat): (s: seq<nat>)
    ensures |s| == k && forall i :: 0 <= i < k ==> s[i] == from + i
  {
    if k == 0 then [] else Range(from, k - 1) + [from + k - 1]
  }

  ghost predicate SendStep(c: PdcpSender.Config, w: World, payload: Payload, x: PdcpSender.Input, w': World)
    requires c.Valid()
  {
    && 0 < |payload| && x.now < U64
    && |w.sent| + 1 < U32
    && w' == w.(sender := PdcpSender.After(c, w.sender, payload, x),
                sent := if HEADER_SIZE + |payload| > MAX_PACKET_SIZE then w.sent else w.sent + [payload],
                wire := w.wire + BytesOf(PdcpSender.Log(c, w.sender, payload, x)))
  }

  /** The state after the receiver handed out `forwarded`, which start at number `from`. */
  function HandUp(w: World, r': Receiver, from: nat, forwarded: seq<Payload>): World {
    w.(receiver := r', out := w.out + forwarded, nums := w.nums + Range(from, |forwarded|))
  }

  ghost predicate ArriveStep(w: World, k: nat, w': World)
    requires w.receiver.Sized()
  {
    && k < |w.wire| && |w.wire[k]| >= HEADER_SIZE
    && var n, r := Decode(w.wire[k]).seqNo, w.receiver;
    && n < r.nextExpected + WINDOW
    && var (r', outcome) := Process(r, w.wire[k]);
    && var w1 := w.(arrived := w.arrived + {n});
    && w' == match outcome
             case Buffered(forwarded) =>
               HandUp(w1, r', r.nextExpected, forwarded).(accepted := w.accepted + {n})
             case Late(_) => w1.(receiver := r', late := w.late + 1)
             case _ => w1.(receiver := r')
  }

  ghost predicate ExpireStep(w: World, w': World)
    requires w.receiver.Sized()
  {
    var r', forwarded := Timeout(w.receiver).0, Timeout(w.receiver).1;
    && r'.nextExpected >= |forwarded|
    && w' == HandUp(w, r', r'.nextExpected - |forwarded|, forwarded)
             .(timeouts := if w.receiver.timerRunning then w.timeouts + 1 else w.timeouts)
  }

  ghost predicate Step(c: PdcpSender.Config, w: World, e: Event, w': World)
    requires c.Valid() && w.receiver.Sized()
  {
    match e
    case Send(payload, input) => SendStep(c, w, payload, input, w')
    case Command(s) => s.nextSequence == w.sender.nextSequence && w' == w.(sender := s)
    case Arrive(k) => ArriveStep(w, k, w')
    case Expire => ExpireStep(w, w')
  }

  // ---------------------------------------------------------------------------------------------
  // The invariant
  // ---------------------------------------------------------------------------------------------

  predicate Sendable(p: Payload) {
    0 < |p| && HEADER_SIZE + |p| <= MAX_PACKET_SIZE
  }

  /** A packet on the wire carries, under its number, the payload sent with that number. */
  predicate OnWire(bytes: seq<Byte>, sent: seq<Payload>) {
    && |bytes| >= HEADER_SIZE
    && Decode(bytes).seqNo < |sent|
    && PdcpSender.Carries(bytes, Decode(bytes).seqNo, sent[Decode(bytes).seqNo])
  }

  ghost predicate WireInv(w: World) {
    && w.sender.nextSequence == |w.sent| < U32
    && (forall p :: p in w.sent ==> Sendable(p))
    && (forall k :: 0 <= k < |w.wire| ==> OnWire(w.wire[k], w.sent))
  }

  ghost predicate Genuine(m: map<nat, Payload>, sent: seq<Payload>) {
    forall n :: n in m ==> n < |sent| && m[n] == sent[n]
  }

  predicate Increasing(nums: seq<nat>) {
    forall i, j :: 0 <= i < j < |nums| ==> nums[i] < nums[j]
  }

  /** What was handed up are sent payloads at strictly increasing numbers below `next`. */
  ghost predicate Delivered(out: seq<Payload>, nums: seq<nat>, next: nat, sent: seq<Payload>) {
    && |out| == |nums|
    && Increasing(nums)
    && forall i :: 0 <= i < |nums| ==> nums[i] < next && nums[i] < |sent| && out[i] == sent[nums[i]]
  }

  /** Every accepted number was handed up or is still held. */
  ghost predicate Conserved(accepted: set<nat>, nums: seq<nat>, m: map<nat, Payload>) {
    forall n: nat :: n in accepted <==> n in nums || n in m
  }

  predicate Gapless(nums: seq<nat>, next: nat) {
    |nums| == next && forall i :: 0 <= i < |nums| ==> nums[i] == i
  }

  ghost predicate DeliveryInv(w: World) {
    && ReceiverInv(w.receiver)
    && Genuine(Contents(w.receiver), w.sent)
    && Delivered(w.out, w.nums, w.receiver.nextExpected, w.sent)
    && Conserved(w.accepted, w.nums, Contents(w.receiver))
    && (forall n :: n in w.arrived ==> n in w.accepted || n < w.receiver.nextExpected)
    && w.receiver.delivered == |w.out| + w.late && w.receiver.dropped == 0
    && (w.timeouts == 0 ==> Gapless(w.nums, w.receiver.nextExpected))
  }

  lemma InitialWorld(w: World)
    requires IsInitial(w)
    ensures WireInv(w) && DeliveryInv(w)
  {
    InitialInv();
    var r := w.receiver;
    assert forall s: nat :: !Held(r, s);
  }

  // ---------------------------------------------------------------------------------------------
  // Each event keeps it
  // ---------------------------------------------------------------------------------------------

  lemma SendKeeps(c: PdcpSender.Config, w: World, payload: Payload, x: PdcpSender.Input, w': World)
    requires c.Valid() && WireInv(w) && DeliveryInv(w) && SendStep(c, w, payload, x, w')
    ensures WireInv(w') && DeliveryInv(w')
  {
    var log := PdcpSender.Log(c, w.sender, payload, x);
    forall k | 0 <= k < |w.wire| ensures OnWire(w.wire[k], w'.sent) {
      assert OnWire(w.wire[k], w.sent);
    }
    forall k | 0 <= k < |log| ensures OnWire(log[k].bytes, w'.sent) {
      CallOnWire(c, w.sender, w.sent, payload, x, k);
    }
  }

  lemma CallOnWire(c: PdcpSender.Config, st: PdcpSender.Sender, sent: seq<Payload>, payload: Payload,
                   x: PdcpSender.Input, k: nat)
    requires c.Valid() && x.now < U64 && st.nextSequence == |sent| && |sent| + 1 < U32
    requires k < |PdcpSender.Log(c, st, payload, x)|
    ensures HEADER_SIZE + |payload| <= MAX_PACKET_SIZE
    ensures OnWire(PdcpSender.Log(c, st, payload, x)[k].bytes, sent + [payload])
  {
    PdcpSender.EveryCallCarriesThePacket(c, st, payload, x, k);
    NewOnWire(PdcpSender.Log(c, st, payload, x)[k].bytes, sent, payload);
  }

  lemma NewOnWire(bytes: seq<Byte>, sent: seq<Payload>, payload: Payload)
    requires PdcpSender.Carries(bytes, |sent|, payload)
    ensures OnWire(bytes, sent + [payload])
  {
  }

  /** Handing out from `from` what a map `m` holds there keeps order, contents and conservation. */
  lemma HandUpKeeps(out: seq<Payload>, nums: seq<nat>, next: nat, sent: seq<Payload>, accepted: set<nat>,
                    from: nat, m: map<nat, Payload>, next': nat, forwarded: seq<Payload>, m': map<nat, Payload>)
    requires Delivered(out, nums, next, sent) && next <= from
    requires Genuine(m, sent) && Conserved(accepted, nums, m)
    requires forall n :: n in m ==> n >= from
    requires Flushes(from, m, next', forwarded, m')
    ensures Genuine(m', sent)
    ensures Delivered(out + forwarded, nums + Range(from, |forwarded|), next', sent)
    ensures Conserved(accepted, nums + Range(from, |forwarded|), m')
  {
    var nums' := nums + Range(from, |forwarded|);
    forall n: nat ensures n in accepted <==> n in nums' || n in m' {
      if from <= n < next' {
        assert nums'[|nums| + n - from] == n;
      }
      if n in nums {
        var i :| 0 <= i < |nums| && nums[i] == n;
        assert nums'[i] == n;
      }
    }
    forall i | 0 <= i < |nums'|
      ensures nums'[i] < next' && nums'[i] < |sent| && (out + forwarded)[i] == sent[nums'[i]]
    {
      if i >= |nums| {
        assert nums'[i] in m;
      }
    }
  }

  lemma LateKeeps(w: World, k: nat, w': World)
    requires WireInv(w) && DeliveryInv(w) && ArriveStep(w, k, w')
    requires Decode(w.wire[k]).seqNo < w.receiver.nextExpected
    ensures WireInv(w') && DeliveryInv(w')
  {
    assert OnWire(w.wire[k], w.sent);
    assert w.sent[Decode(w.wire[k]).seqNo] in w.sent;
    LateArrival(w.receiver, w.wire[k]);
  }

  /** What the receiver does with a genuine packet of the window. */
  lemma ProcessBuffers(r: Receiver, packet: seq<Byte>, n: nat, p: Payload)
    requires ReceiverInv(r) && |packet| >= HEADER_SIZE && PdcpSender.Carries(packet, n, p)
    requires |p| <= MAX_PACKET_SIZE && n >= r.nextExpected
    ensures Process(r, packet).0 == Drain(Store(r, 0, n, p)).0
    ensures Process(r, packet).1 == Buffered(Drain(Store(r, 0, n, p)).1)
  {
  }

  lemma EarlyKeeps(w: World, k: nat, w': World)
    requires WireInv(w) && DeliveryInv(w) && ArriveStep(w, k, w')
    requires Decode(w.wire[k]).seqNo >= w.receiver.nextExpected
    ensures WireInv(w') && DeliveryInv(w')
  {
    var r, n := w.receiver, Decode(w.wire[k]).seqNo;
    assert OnWire(w.wire[k], w.sent);
    var p := w.sent[n];
    assert p in w.sent;
    ProcessBuffers(r, w.wire[k], n, p);
    ArrivalRefinesMap(r, n, p);
    var r', forwarded := Process(r, w.wire[k]).0, Process(r, w.wire[k]).1.forwarded;
    var m := Contents(r)[n := p];
    HandUpKeeps(w.out, w.nums, r.nextExpected, w.sent, w.accepted + {n}, r.nextExpected, m,
                r'.nextExpected, forwarded, Contents(r'));
  }

  /** A timeout that hands out from the least held number on. */
  lemma HandedOutKeeps(w: World, w': World, r': Receiver, from: nat, forwarded: seq<Payload>)
    requires WireInv(w) && DeliveryInv(w) && ReceiverInv(r')
    requires IsLeast(from, Contents(w.receiver))
    requires Flushes(from, Contents(w.receiver), r'.nextExpected, forwarded, Contents(r'))
    requires r'.delivered == w.receiver.delivered + |forwarded| && r'.dropped == w.receiver.dropped
    requires w' == HandUp(w, r', from, forwarded).(timeouts := w.timeouts + 1)
    ensures WireInv(w') && DeliveryInv(w')
  {
    HandUpKeeps(w.out, w.nums, w.receiver.nextExpected, w.sent, w.accepted, from, Contents(w.receiver),
                r'.nextExpected, forwarded, Contents(r'));
  }

  lemma ExpireKeeps(w: World, w': World)
    requires WireInv(w) && DeliveryInv(w) && ExpireStep(w, w')
    ensures WireInv(w') && DeliveryInv(w')
  {
    var r := w.receiver;
    if r.timerRunning {
      var r', forwarded := Timeout(r).0, Timeout(r).1;
      TimeoutRefinesMap(r, r', forwarded);
      HandedOutKeeps(w, w', r', r'.nextExpected - |forwarded|, forwarded);
    } else {
      TimeoutIdle(r);
      assert w'.out == w.out && w'.nums == w.nums;
    }
  }

  lemma StepKeeps(c: PdcpSender.Config, w: World, e: Event, w': World)
    requires c.Valid() && WireInv(w) && DeliveryInv(w) && Step(c, w, e, w')
    ensures WireInv(w') && DeliveryInv(w')
  {
    match e
    case Send(payload, input) => SendKeeps(c, w, payload, input, w');
    case Command(_) =>
    case Arrive(k) =>
      if Decode(w.wire[k]).seqNo < w.receiver.nextExpected {
        LateKeeps(w, k, w');
      } else {
        EarlyKeeps(w, k, w');
      }
    case Expire => ExpireKeeps(w, w');
  }

  // ---------------------------------------------------------------------------------------------
  // Runs
  // ---------------------------------------------------------------------------------------------

  ghost predicate IsRun(c: PdcpSender.Config, ws: seq<World>, es: seq<Event>)
    requires c.Valid()
  {
    && |ws| == |es| + 1
    && IsInitial(ws[0])
    && forall i :: 0 <= i < |es| ==> ws[i].receiver.Sized() && Step(c, ws[i], es[i], ws[i + 1])
  }

  lemma {:induction false} RunKeeps(c: PdcpSender.Config, ws: seq<World>, es: seq<Event>, i: nat)
    requires c.Valid() && IsRun(c, ws, es) && i < |ws|
    ensures WireInv(ws[i]) && DeliveryInv(ws[i])
  {
    if i == 0 {
      InitialWorld(ws[0]);
    } else {
      RunKeeps(c, ws, es, i - 1);
      StepKeeps(c, ws[i - 1], es[i - 1], ws[i]);
    }
  }

  /** In every run the payloads handed up are sent payloads, in sending order, none twice. */
  lemma InOrderWithoutDuplicates(c: PdcpSender.Config, ws: seq<World>, es: seq<Event>, i: nat)
    requires c.Valid() && IsRun(c, ws, es) && i < |ws|
    ensures var w := ws[i];
            && |w.out| == |w.nums| && Increasing(w.nums)
            && forall j :: 0 <= j < |w.out| ==> w.nums[j] < |w.sent| && w.out[j] == w.sent[w.nums[j]]
  {
    RunKeeps(c, ws, es, i);
  }

  /** A packet that was buffered is handed up exactly once or is still held, and while any is held the timer runs. */
  lemma AcceptedIsNeverLost(c: PdcpSender.Config, ws: seq<World>, es: seq<Event>, i: nat, n: nat)
    requires c.Valid() && IsRun(c, ws, es) && i < |ws| && n in ws[i].accepted
    ensures ws[i].receiver.Sized()
    ensures (n in ws[i].nums) != (n in Contents(ws[i].receiver))
    ensures n in Contents(ws[i].receiver) ==>
              n < |ws[i].sent| && Contents(ws[i].receiver)[n] == ws[i].sent[n] && ws[i].receiver.timerRunning
  {
    RunKeeps(c, ws, es, i);
    TimerRunsIffHeld(ws[i].receiver);
  }

  /** Without timeouts exactly a prefix of what was sent is handed up, and all of it once every number has arrived. */
  lemma ExactPrefixWithoutTimeouts(c: PdcpSender.Config, ws: seq<World>, es: seq<Event>, i: nat)
    requires c.Valid() && IsRun(c, ws, es) && i < |ws| && ws[i].timeouts == 0
    ensures ws[i].receiver.nextExpected <= |ws[i].sent|
    ensures ws[i].out == ws[i].sent[..ws[i].receiver.nextExpected]
    ensures (forall n: nat :: n < |ws[i].sent| ==> n in ws[i].arrived) ==> ws[i].out == ws[i].sent
  {
    RunKeeps(c, ws, es, i);
    var w := ws[i];
    var next := w.receiver.nextExpected;
    assert next > 0 ==> w.nums[next - 1] == next - 1;
    assert w.out == w.sent[..next];
    assert next !in w.nums && next !in Contents(w.receiver);
    assert next !in w.arrived;
  }

  /**
   The receiver's counters: no packet counts as dropped, a repeated one neither, and the delivered counter counts late
   arrivals, which are not handed up, along with what is handed up.
  */
  lemma DeliveredCounterCountsLateOnes(c: PdcpSender.Config, ws: seq<World>, es: seq<Event>, i: nat)
    requires c.Valid() && IsRun(c, ws, es) && i < |ws|
    ensures ws[i].receiver.delivered == |ws[i].out| + ws[i].late && ws[i].receiver.dropped == 0
  {
    RunKeeps(c, ws, es, i);
  }
}
