/**
 The PDCP receiver: a ring of reorder slots, a reordering timer, and in-sequence delivery. Buffering a
 packet, delivering one and handling a timeout are each one atomic step. `Receiver` is the state as
 a value; the functions on it specify the class that updates the state in place.
*/
module PdcpReceiver {
  import opened Options
  import opened Bytes
  import opened PdcpHeader

  type Payload = seq<Byte>

  /** `PDCP_SEQ_LIMIT`. */
  const SEQ_LIMIT := 4294967295

  /** The ring has `1024*8` slots, but the unparenthesised macro makes the index `seq % 1024 * 8`. */
  const SLOTS := 1024 * 8
  const WINDOW := 1024

  function Slot(seqNo: nat): nat {
    seqNo % 1024 * 8
  }

  datatype Packet = Packet(data: Payload, epoch: nat, seqNo: nat)

  datatype Receiver = Receiver(
    packets: seq<Packet>, present: seq<bool>,
    nextExpected: nat, highestReceived: nat, highestEpoch: nat,
    timerRunning: bool, delivered: nat, dropped: nat)
  {
    predicate Sized() {
      |packets| == |present| == SLOTS
    }
  }

  const NO_PACKET := Packet([], 0, 0)

  function Initial(): (r: Receiver)
    ensures r.Sized()
  {
    Receiver(seq(SLOTS, i => NO_PACKET), seq(SLOTS, i => false), 0, 0, 0, false, 0, 0)
  }

  // ---------------------------------------------------------------------------------------------
  // One delivery
  // ---------------------------------------------------------------------------------------------

  /** The state after `deliverPacket`, and the payload it copied out, if any. */
  function Deliver(r: Receiver): (res: (Receiver, Option<Payload>))
    requires r.Sized()
    ensures res.0.Sized()
  {
    var startSeq, maxSeq := r.nextExpected % U32, r.highestReceived % U32;
    var index := Slot(startSeq);
    if !r.present[index] then
      (if startSeq <= r.highestReceived then r.(timerRunning := true) else r, None)
    else
      var r1 := if startSeq == maxSeq then r.(timerRunning := false) else r;
      var data := r.packets[index].data;
      if |data| > MAX_PACKET_SIZE then (r1, None)
      else
        (r1.(present := r.present[index := false],
             nextExpected := if startSeq == SEQ_LIMIT then 0 else r.nextExpected + 1,
             delivered := r.delivered + 1),
         Some(data))
  }

  function Occupied(present: seq<bool>): nat {
    if present == [] then 0 else Occupied(present[1..]) + (if present[0] then 1 else 0)
  }

  lemma {:induction false} OccupiedDrops(present: seq<bool>, i: nat)
    requires i < |present| && present[i]
    ensures Occupied(present[i := false]) == Occupied(present) - 1
  {
    var present' := present[i := false];
    if i == 0 {
      assert present'[1..] == present[1..];
    } else {
      assert present'[1..] == present[1..][i - 1 := false];
      OccupiedDrops(present[1..], i - 1);
    }
  }

  /** The delivery callback: deliver and forward until nothing comes, or an empty payload comes. */
  function Drain(r: Receiver): (res: (Receiver, seq<Payload>))
    requires r.Sized()
    ensures res.0.Sized()
    decreases Occupied(r.present)
  {
    var (r1, out) := Deliver(r);
    if out.None? || out.value == [] then (r1, [])
    else
      OccupiedDrops(r.present, Slot(r.nextExpected % U32));
      var (r2, more) := Drain(r1);
      (r2, [out.value] + more)
  }

  /** One turn of the callback's loop. */
  lemma DrainUnfolds(r: Receiver)
    requires r.Sized()
    ensures var (r1, out) := Deliver(r);
            if out.None? || out.value == [] then Drain(r) == (r1, [])
            else Drain(r).0 == Drain(r1).0 && Drain(r).1 == [out.value] + Drain(r1).1
  {
  }

  // ---------------------------------------------------------------------------------------------
  // Arrival and timeout
  // ---------------------------------------------------------------------------------------------

  datatype Outcome =
    | NotPdcp                        // too short: returned to the caller unchanged
    | Dropped
    | Late(payload: Payload)         // returned to the caller, header removed
    | Buffered(forwarded: seq<Payload>)

  /** Store the packet and update the highest number; the delivery callback runs next. */
  function Store(r: Receiver, epoch: nat, seqNo: nat, payload: Payload): (r': Receiver)
    requires r.Sized()
    ensures r'.Sized()
  {
    var r1 := r.(packets := r.packets[Slot(seqNo) := Packet(payload, epoch, seqNo)],
                 present := r.present[Slot(seqNo) := true]);
    if epoch == r.highestEpoch then
      if seqNo > r.highestReceived then r1.(highestReceived := seqNo) else r1
    else if epoch > r.highestEpoch then r1.(highestEpoch := epoch, highestReceived := seqNo)
    else r1
  }

  function Process(r: Receiver, packet: seq<Byte>): (res: (Receiver, Outcome))
    requires r.Sized()
    ensures res.0.Sized()
  {
    if |packet| < HEADER_SIZE then (r, NotPdcp)
    else
      var h, payload := Decode(packet), packet[HEADER_SIZE..];
      if |payload| > MAX_PACKET_SIZE then (r.(dropped := r.dropped + 1), Dropped)
      else if h.seqNo < r.nextExpected && h.epoch <= r.highestEpoch then
        (r.(delivered := r.delivered + 1), Late(payload))
      else if r.nextExpected >= h.seqNo + 1 then (r.(dropped := r.dropped + 1), Dropped)
      else
        var (r', out) := Drain(Store(r, h.epoch, h.seqNo, payload));
        (r', Buffered(out))
  }

  /** The least number from `from` up to `maxSeq` whose slot is occupied. */
  function FirstPresent(r: Receiver, from: nat, maxSeq: nat): (s: Option<nat>)
    requires r.Sized()
    ensures s.Some? ==> from <= s.value <= maxSeq && r.present[Slot(s.value)]
    ensures s.Some? ==> forall k :: from <= k < s.value ==> !r.present[Slot(k)]
    ensures s.None? ==> forall k :: from <= k <= maxSeq ==> !r.present[Slot(k)]
    decreases maxSeq + 1 - from
  {
    if from > maxSeq then None
    else if r.present[Slot(from)] then Some(from)
    else FirstPresent(r, from + 1, maxSeq)
  }

  /** `checkReorderingTimeout` with its callback. */
  function Timeout(r: Receiver): (res: (Receiver, seq<Payload>))
    requires r.Sized()
    ensures res.0.Sized()
  {
    match FirstPresent(r, r.nextExpected % U32, r.highestReceived % U32)
    case None => (r, [])
    case Some(s) => Drain(r.(nextExpected := s))
  }

  // ---------------------------------------------------------------------------------------------
  // The class
  // ---------------------------------------------------------------------------------------------

  class PdcpReceiver {
    const packets: array<Packet>
    const packetPresent: array<bool>
    var nextExpected: nat
    var highestReceived: nat
    var highestEpoch: nat
    var timerRunning: bool
    var deliveredCount: nat
    var droppedCount: nat

    ghost predicate Valid()
      reads this
    {
      packets.Length == packetPresent.Length == SLOTS
    }

    ghost function State(): (r: Receiver)
      reads this, packets, packetPresent
      requires Valid()
      ensures r.Sized()
    {
      Receiver(packets[..], packetPresent[..], nextExpected, highestReceived, highestEpoch,
               timerRunning, deliveredCount, droppedCount)
    }

    constructor ()
      ensures Valid() && fresh(packets) && fresh(packetPresent)
      ensures State() == Initial()
    {
      packets := new Packet[SLOTS](i => NO_PACKET);
      packetPresent := new bool[SLOTS](i => false);
      nextExpected, highestReceived, highestEpoch := 0, 0, 0;
      timerRunning := false;
      deliveredCount, droppedCount := 0, 0;
      new;
      assert packets[..] == Initial().packets;
      assert packetPresent[..] == Initial().present;
    }

    method DeliverPacket() returns (out: Option<Payload>)
      requires Valid()
      modifies this, packetPresent
      ensures Valid() && (State(), out) == Deliver(old(State()))
    {
      var startSeq := nextExpected % U32;
      var maxSeq := highestReceived % U32;
      var index := Slot(startSeq);
      if !packetPresent[index] {
        if startSeq <= highestReceived {
          timerRunning := true;
        }
        return None;
      }
      if startSeq == maxSeq {
        timerRunning := false;
      }
      var pkt := packets[index];
      if |pkt.data| <= MAX_PACKET_SIZE {
        packetPresent[index] := false;
        nextExpected := nextExpected + 1;
        deliveredCount := deliveredCount + 1;
        if startSeq == SEQ_LIMIT {
          nextExpected := 0;
        }
        return Some(pkt.data);
      }
      return None;
    }

    /** The callback registered by the receiver process. */
    method DeliveryCallback() returns (forwarded: seq<Payload>)
      requires Valid()
      modifies this, packetPresent
      ensures Valid()
      ensures State() == Drain(old(State())).0
      ensures forwarded == Drain(old(State())).1
    {
      ghost var r := State();
      ghost var goal := Drain(r);
      forwarded := [];
      assert [] + goal.1 == goal.1;
      var out := DeliverPacket();
      while out.Some? && out.value != []
        invariant Valid() && r.Sized() && (State(), out) == Deliver(r)
        invariant goal == (Drain(r).0, forwarded + Drain(r).1)
        decreases Occupied(r.present)
      {
        OccupiedDrops(r.present, Slot(r.nextExpected % U32));
        DrainUnfolds(r);
        assert forwarded + Drain(r).1 == (forwarded + [out.value]) + Drain(State()).1;
        forwarded := forwarded + [out.value];
        r := State();
        out := DeliverPacket();
      }
      DrainUnfolds(r);
      assert forwarded + [] == forwarded;
    }

    method ProcessPacket(packet: seq<Byte>) returns (outcome: Outcome)
      requires Valid()
      modifies this, packets, packetPresent
      ensures Valid() && (State(), outcome) == Process(old(State()), packet)
    {
      if |packet| < HEADER_SIZE {
        return NotPdcp;
      }
      var h := Decode(packet);
      var payload := packet[HEADER_SIZE..];
      if |payload| > MAX_PACKET_SIZE {
        droppedCount := droppedCount + 1;
        return Dropped;
      }
      var idx := Slot(h.seqNo);
      if h.seqNo < nextExpected && h.epoch <= highestEpoch {
        deliveredCount := deliveredCount + 1;
        return Late(payload);
      }
      if nextExpected >= h.seqNo + 1 {
        droppedCount := droppedCount + 1;
        return Dropped;
      }
      ghost var r := State();
      packets[idx] := Packet(payload, h.epoch, h.seqNo);
      packetPresent[idx] := true;
      if h.epoch == highestEpoch {
        if h.seqNo > highestReceived {
          highestReceived := h.seqNo;
        }
      } else if h.epoch > highestEpoch {
        highestEpoch := h.epoch;
        highestReceived := h.seqNo;
      }
      assert State() == Store(r, h.epoch, h.seqNo, payload);
      var forwarded := DeliveryCallback();
      return Buffered(forwarded);
    }

    method CheckReorderingTimeout() returns (forwarded: seq<Payload>)
      requires Valid()
      modifies this, packetPresent
      ensures Valid() && (State(), forwarded) == Timeout(old(State()))
    {
      var startSeq := nextExpected % U32;
      var maxSeq := highestReceived % U32;
      var seqNo := startSeq;
      var found := false;
      while seqNo <= maxSeq && !found
        invariant startSeq <= seqNo && State() == old(State())
        invariant FirstPresent(State(), startSeq, maxSeq) == FirstPresent(State(), seqNo, maxSeq)
        invariant found ==> seqNo <= maxSeq && packetPresent[Slot(seqNo)]
        decreases maxSeq + 1 - seqNo, !found
      {
        if packetPresent[Slot(seqNo)] {
          found := true;
        } else {
          seqNo := seqNo + 1;
        }
      }
      if found {
        if seqNo != nextExpected {
          nextExpected := seqNo;
        }
        forwarded := DeliveryCallback();
      } else {
        forwarded := [];
      }
    }
  }
}
