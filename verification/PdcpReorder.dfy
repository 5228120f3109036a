/**
 What the receiver's ring means. A *number* `s` is held when its slot is occupied. As `Slot` is injective on
 1024 consecutive numbers, the ring is read through the window of 1024 numbers that starts at `nextExpected`.
*/
module PdcpReorder {
  import opened Options
  import opened Bytes
  import opened PdcpHeader
  import opened PdcpReceiver

  predicate Held(r: Receiver, s: nat)
    requires r.Sized()
  {
    r.present[Slot(s)]
  }

  function Stored(r: Receiver, s: nat): Packet
    requires r.Sized()
  {
    r.packets[Slot(s)]
  }

  predicate InWindow(r: Receiver, s: nat) {
    r.nextExpected <= s < r.nextExpected + WINDOW
  }

  predicate Deliverable(p: Packet) {
    0 < |p.data| <= MAX_PACKET_SIZE
  }

  /** Every held number of the window can be delivered and is at most the highest received. */
  ghost predicate Walkable(r: Receiver) {
    && r.Sized()
    && r.highestReceived < SEQ_LIMIT
    && r.nextExpected <= r.highestReceived + 1
    && forall s: nat :: InWindow(r, s) && Held(r, s) ==> s <= r.highestReceived && Deliverable(Stored(r, s))
  }

  /** Every held number of the window is held under its own packet. */
  ghost predicate Labelled(r: Receiver)
    requires r.Sized()
  {
    forall s: nat :: InWindow(r, s) && Held(r, s) ==> Stored(r, s).seqNo == s
  }

  /** Something is held exactly if the highest number is, unless nothing has been received. */
  predicate TopHeld(r: Receiver)
    requires r.Sized()
  {
    r.nextExpected <= r.highestReceived ==>
      (InWindow(r, r.highestReceived) && Held(r, r.highestReceived)) || r.nextExpected == r.highestReceived == 0
  }

  /** Nothing is stranded: the next number is not held, and the timer runs exactly if something is held. */
  predicate Settled(r: Receiver)
    requires r.Sized()
  {
    && !Held(r, r.nextExpected)
    && (r.timerRunning <==> Held(r, r.highestReceived) && r.nextExpected <= r.highestReceived)
  }

  /** What holds between any two events. */
  ghost predicate ReceiverInv(r: Receiver) {
    Walkable(r) && Labelled(r) && TopHeld(r) && Settled(r) && r.highestEpoch == 0
  }

  lemma SlotPeriodic(a: nat, b: nat)
    requires a <= b
    ensures (Slot(a) == Slot(b)) <==> (b - a) % WINDOW == 0
  {
  }

  lemma InitialInv()
    ensures ReceiverInv(Initial())
  {
    var r := Initial();
  }

  // ---------------------------------------------------------------------------------------------
  // Draining
  // ---------------------------------------------------------------------------------------------

  /** `out` are the packets of consecutive numbers from `nextExpected`, and the walk stopped at a gap. */
  ghost predicate Walked(r: Receiver, r': Receiver, out: seq<Payload>)
    requires r.Sized() && r'.Sized()
  {
    && r'.packets == r.packets
    && r'.highestReceived == r.highestReceived
    && r'.highestEpoch == r.highestEpoch
    && r'.nextExpected == r.nextExpected + |out|
    && r'.delivered == r.delivered + |out| && r'.dropped == r.dropped
    && |out| <= WINDOW
    && !Held(r', r'.nextExpected)
    && (forall s: nat :: r.nextExpected <= s < r'.nextExpected ==> Held(r, s) && !Held(r', s))
    && (forall s: nat :: r.nextExpected <= s < r'.nextExpected ==> out[s - r.nextExpected] == Stored(r, s).data)
    && (forall s: nat :: InWindow(r, s) && s >= r'.nextExpected ==> (Held(r', s) <==> Held(r, s)))
    && (r'.timerRunning <==> r'.nextExpected <= r.highestReceived)
  }

  function DeliveredOne(r: Receiver): Receiver
    requires r.Sized()
  {
    r.(present := r.present[Slot(r.nextExpected) := false],
       nextExpected := r.nextExpected + 1, delivered := r.delivered + 1,
       timerRunning := r.timerRunning && r.nextExpected != r.highestReceived)
  }

  /** One delivery from a walkable ring whose next number is held. */
  lemma DeliverHeld(r: Receiver)
    requires Walkable(r) && Held(r, r.nextExpected)
    ensures Deliver(r) == (DeliveredOne(r), Some(Stored(r, r.nextExpected).data))
    ensures Walkable(DeliveredOne(r))
  {
    assert InWindow(r, r.nextExpected);
    var r1 := DeliveredOne(r);
    forall s: nat | InWindow(r1, s) && Held(r1, s)
      ensures s <= r.highestReceived && Deliverable(Stored(r1, s))
    {
      SlotPeriodic(r.nextExpected, s);
      assert InWindow(r, s) && Held(r, s);
    }
  }

  /** Other numbers of the window are untouched by that delivery. */
  lemma DeliverFrame(r: Receiver, r1: Receiver, s: nat)
    requires r.Sized() && r1.Sized() && r1.present == r.present[Slot(r.nextExpected) := false]
    requires InWindow(r, s)
    ensures Held(r1, s) <==> Held(r, s) && s != r.nextExpected
  {
    SlotPeriodic(r.nextExpected, s);
  }

  /** One delivery attempt at a gap only sets the timer. */
  lemma DeliverGap(r: Receiver)
    requires Walkable(r) && !Held(r, r.nextExpected)
    requires r.nextExpected <= r.highestReceived || !r.timerRunning
    ensures Deliver(r) == (r.(timerRunning := r.nextExpected <= r.highestReceived), None)
  {
  }

  lemma WalkedGap(r: Receiver, r': Receiver)
    requires Walkable(r) && !Held(r, r.nextExpected)
    requires r' == r.(timerRunning := r.nextExpected <= r.highestReceived)
    ensures Walked(r, r', []) && Walkable(r')
  {
    assert forall s: nat :: InWindow(r', s) && Held(r', s) ==> InWindow(r, s) && Held(r, s);
  }

  lemma {:induction false} DrainWalks(r: Receiver)
    requires Walkable(r)
    requires r.nextExpected <= r.highestReceived || !r.timerRunning
    ensures Walked(r, Drain(r).0, Drain(r).1) && Walkable(Drain(r).0)
    decreases Occupied(r.present)
  {
    DrainUnfolds(r);
    var r1 := Deliver(r).0;
    if Held(r, r.nextExpected) {
      DeliverHeld(r);
      OccupiedDrops(r.present, Slot(r.nextExpected));
      DrainWalks(r1);
      assert InWindow(r, r.nextExpected);
      WalkedStep(r, r1, Drain(r1).0, Drain(r1).1);
    } else {
      DeliverGap(r);
      WalkedGap(r, r1);
    }
  }

  lemma WalkedStep(r: Receiver, r1: Receiver, r': Receiver, more: seq<Payload>)
    requires r.Sized() && r1.Sized() && r'.Sized()
    requires Held(r, r.nextExpected)
    requires r1 == DeliveredOne(r)
    requires Walked(r1, r', more)
    ensures Walked(r, r', [Stored(r, r.nextExpected).data] + more)
  {
    var n := r.nextExpected;
    var out := [Stored(r, n).data] + more;
    forall s: nat | InWindow(r, s) ensures Held(r1, s) <==> Held(r, s) && s != n {
      DeliverFrame(r, r1, s);
    }
    SlotPeriodic(n, n + WINDOW);
    assert InWindow(r, n) && InWindow(r1, n + WINDOW);
    assert !Held(r1, n + WINDOW) && (Held(r', n) <==> Held(r', n + WINDOW));
    forall s: nat | n <= s < r'.nextExpected ensures out[s - n] == Stored(r, s).data {
      if s > n {
        assert out[s - n] == more[s - r1.nextExpected];
        assert Stored(r1, s) == Stored(r, s);
      }
    }
  }

  // ---------------------------------------------------------------------------------------------
  // The reorder buffer as a map from numbers to payloads
  // ---------------------------------------------------------------------------------------------

  ghost function Contents(r: Receiver): map<nat, Payload>
    requires r.Sized()
  {
    map s: nat | r.nextExpected <= s < r.nextExpected + WINDOW && Held(r, s) :: Stored(r, s).data
  }

  /** Hand out `m` from `next` up to the first missing number `next'`; `m'` is what remains. */
  ghost predicate Flushes(next: nat, m: map<nat, Payload>, next': nat, out: seq<Payload>, m': map<nat, Payload>) {
    && next' == next + |out|
    && next' !in m
    && (forall n: nat :: next <= n < next' ==> n in m && out[n - next] == m[n])
    && (forall n: nat :: n in m' <==> n in m && n >= next')
    && (forall n: nat :: n in m' ==> m'[n] == m[n])
  }

  lemma WalkedFlushes(r: Receiver, r': Receiver, out: seq<Payload>)
    requires Walkable(r) && r'.Sized() && Walked(r, r', out)
    ensures Flushes(r.nextExpected, Contents(r), r'.nextExpected, out, Contents(r'))
  {
    var m, m', next' := Contents(r), Contents(r'), r'.nextExpected;
    forall n: nat ensures n in m' <==> n in m && n >= next' {
      if InWindow(r', n) && !InWindow(r, n) {
        SlotPeriodic(n - WINDOW, n);
        assert Held(r', n) <==> Held(r', n - WINDOW);
      }
    }
    if next' in m {
      assert InWindow(r, next');
    }
    forall n: nat | n in m' ensures m'[n] == m[n] {
      assert Stored(r', n) == Stored(r, n);
    }
  }

  /** After a walk from a ring in good order, the ring is in good order again. */
  lemma WalkedKeeps(r: Receiver, r': Receiver, out: seq<Payload>)
    requires Walkable(r) && Labelled(r) && TopHeld(r) && r.highestEpoch == 0
    requires r.nextExpected <= r.highestReceived ==> Held(r, r.highestReceived)
    requires Walkable(r') && Walked(r, r', out)
    ensures ReceiverInv(r')
  {
    assert forall s: nat :: InWindow(r', s) && Held(r', s) ==> InWindow(r, s) && Held(r, s);
  }

  // ---------------------------------------------------------------------------------------------
  // Arrival
  // ---------------------------------------------------------------------------------------------

  lemma StoreWalkable(r: Receiver, s: nat, p: Payload)
    requires ReceiverInv(r) && r.nextExpected <= s < SEQ_LIMIT
    requires 0 < |p| <= MAX_PACKET_SIZE
    ensures Walkable(Store(r, 0, s, p))
  {
    var r1 := Store(r, 0, s, p);
    forall n: nat | InWindow(r1, n) && Held(r1, n)
      ensures n <= r1.highestReceived && Deliverable(Stored(r1, n))
    {
      if Slot(n) == Slot(s) {
        if n > s {
          SlotPeriodic(s, n);
          assert false;
        }
      } else {
        assert Held(r, n) && InWindow(r, n);
      }
    }
  }

  lemma StoreInWindow(r: Receiver, s: nat, p: Payload)
    requires ReceiverInv(r) && InWindow(r, s) && s < SEQ_LIMIT
    requires 0 < |p| <= MAX_PACKET_SIZE
    ensures var r1 := Store(r, 0, s, p);
            && Labelled(r1) && TopHeld(r1) && Held(r1, r1.highestReceived)
            && Contents(r1) == Contents(r)[s := p]
  {
    var r1 := Store(r, 0, s, p);
    forall n: nat | InWindow(r, n)
      ensures Held(r1, n) <==> n == s || Held(r, n)
      ensures n != s ==> Stored(r1, n) == Stored(r, n)
    {
      SlotPeriodic(if n < s then n else s, if n < s then s else n);
    }
    assert InWindow(r1, s) && Held(r1, s);
    if r1.highestReceived != s {
      assert InWindow(r, r.highestReceived) && Held(r, r.highestReceived);
    }
  }

  /**
   A packet of the window arrives: the ring does what a map would do. The packet is added under its number,
   then everything up to the first missing number is handed out.
  */
  lemma ArrivalRefinesMap(r: Receiver, s: nat, p: Payload)
    requires ReceiverInv(r) && InWindow(r, s) && s < SEQ_LIMIT
    requires 0 < |p| <= MAX_PACKET_SIZE
    ensures var (r', out) := Drain(Store(r, 0, s, p));
            && ReceiverInv(r')
            && Flushes(r.nextExpected, Contents(r)[s := p], r'.nextExpected, out, Contents(r'))
            && r'.delivered == r.delivered + |out| && r'.dropped == r.dropped
  {
    var r1 := Store(r, 0, s, p);
    StoreWalkable(r, s, p);
    StoreInWindow(r, s, p);
    DrainWalks(r1);
    var (r', out) := Drain(r1);
    WalkedFlushes(r1, r', out);
    WalkedKeeps(r1, r', out);
  }

  /** Every payload handed out is that of the number it is handed out as, and the ring stays in good order. */
  ghost predicate HandedOutRight(r1: Receiver, r': Receiver, out: seq<Payload>)
    requires r1.Sized() && r'.Sized()
  {
    && (forall n: nat :: r1.nextExpected <= n < r1.nextExpected + |out| ==> Stored(r1, n).seqNo == n)
    && Labelled(r')
  }

  /**
   The exact condition: although the ring has 8192 slots, a new packet is treated right if and only if its number
   is less than 1024 above the next expected one.
  */
  lemma RightIffWithin1024(r: Receiver, s: nat, p: Payload)
    requires ReceiverInv(r) && r.nextExpected <= s < SEQ_LIMIT
    requires 0 < |p| <= MAX_PACKET_SIZE
    ensures var r1 := Store(r, 0, s, p);
            HandedOutRight(r1, Drain(r1).0, Drain(r1).1) <==> s < r.nextExpected + 1024
  {
    var r1 := Store(r, 0, s, p);
    StoreWalkable(r, s, p);
    DrainWalks(r1);
    WalkedRightIff(r, s, p, r1, Drain(r1).0, Drain(r1).1);
  }

  lemma WalkedRightIff(r: Receiver, s: nat, p: Payload, r1: Receiver, r': Receiver, out: seq<Payload>)
    requires ReceiverInv(r) && r.nextExpected <= s < SEQ_LIMIT
    requires 0 < |p| <= MAX_PACKET_SIZE
    requires r1 == Store(r, 0, s, p) && Walkable(r1) && Walkable(r') && Walked(r1, r', out)
    ensures HandedOutRight(r1, r', out) <==> s < r.nextExpected + 1024
  {
    if s < r.nextExpected + 1024 {
      StoreInWindow(r, s, p);
      WalkedRight(r1, r', out);
    } else {
      var s0 := r.nextExpected + (s - r.nextExpected) % 1024;
      SlotPeriodic(s0, s);
      WalkedWrong(r1, r', out, s0);
    }
  }

  lemma WalkedRight(r: Receiver, r': Receiver, out: seq<Payload>)
    requires Walkable(r) && Labelled(r) && TopHeld(r) && Walkable(r') && Walked(r, r', out)
    ensures HandedOutRight(r, r', out)
  {
    assert forall s: nat :: InWindow(r', s) && Held(r', s) ==> InWindow(r, s) && Held(r, s);
    forall n: nat | r.nextExpected <= n < r'.nextExpected ensures Stored(r, n).seqNo == n {
      assert InWindow(r, n) && Held(r, n);
    }
  }

  /** A number of the window held under a packet with another number spoils the walk. */
  lemma WalkedWrong(r: Receiver, r': Receiver, out: seq<Payload>, s: nat)
    requires Walkable(r) && r'.Sized() && Walked(r, r', out)
    requires InWindow(r, s) && Held(r, s) && Stored(r, s).seqNo != s
    ensures !HandedOutRight(r, r', out)
  {
    if s >= r'.nextExpected {
      assert InWindow(r', s) && Held(r', s) && Stored(r', s) == Stored(r, s);
    }
  }

  /** For instance the number 1024 above the next expected one is handed out at once, in its place. */
  lemma OverrunIsHandedOutEarly(r: Receiver, p: Payload)
    requires ReceiverInv(r) && r.nextExpected + 1024 < SEQ_LIMIT
    requires 0 < |p| <= MAX_PACKET_SIZE
    ensures var out := Drain(Store(r, 0, r.nextExpected + 1024, p)).1; out != [] && out[0] == p
  {
    var n, s := r.nextExpected, r.nextExpected + 1024;
    var r1 := Store(r, 0, s, p);
    StoreWalkable(r, s, p);
    SlotPeriodic(n, s);
    DrainWalks(r1);
    assert Held(r1, n) && Stored(r1, n).data == p;
  }

  /** A repeated or late number changes nothing but a counter. */
  lemma LateArrival(r: Receiver, packet: seq<Byte>)
    requires ReceiverInv(r) && |packet| >= HEADER_SIZE
    requires |packet| - HEADER_SIZE <= MAX_PACKET_SIZE
    requires Decode(packet).epoch == 0 && Decode(packet).seqNo < r.nextExpected
    ensures Process(r, packet) == (r.(delivered := r.delivered + 1), Late(packet[HEADER_SIZE..]))
    ensures ReceiverInv(Process(r, packet).0) && Contents(Process(r, packet).0) == Contents(r)
  {
    var r' := r.(delivered := r.delivered + 1);
    assert forall s: nat :: Held(r', s) == Held(r, s) && Stored(r', s) == Stored(r, s);
  }

  // ---------------------------------------------------------------------------------------------
  // Timeout
  // ---------------------------------------------------------------------------------------------

  /** The timer runs exactly while something is held. */
  lemma TimerRunsIffHeld(r: Receiver)
    requires ReceiverInv(r)
    ensures r.timerRunning <==> Contents(r) != map[]
  {
    var m := Contents(r);
    if r.timerRunning {
      assert r.highestReceived in m;
    } else {
      forall s: nat ensures s !in m {
      }
    }
  }

  ghost predicate IsLeast(s: int, m: map<nat, Payload>) {
    s >= 0 && s in m && forall n :: n in m ==> n >= s
  }

  /** With nothing held a timeout does nothing. */
  lemma TimeoutIdle(r: Receiver)
    requires ReceiverInv(r) && !r.timerRunning
    ensures Timeout(r) == (r, [])
  {
    forall k: nat | r.nextExpected <= k <= r.highestReceived ensures !Held(r, k) {
    }
  }

  /**
   Otherwise it moves on to the least held number, so that it never skips a held one, and hands out everything
   from there up to the first missing number.
  */
  lemma TimeoutRefinesMap(r: Receiver, r': Receiver, out: seq<Payload>)
    requires ReceiverInv(r) && r.timerRunning
    requires r' == Timeout(r).0 && out == Timeout(r).1
    ensures ReceiverInv(r') && out != []
    ensures r'.delivered == r.delivered + |out| && r'.dropped == r.dropped
    ensures IsLeast(r'.nextExpected - |out|, Contents(r))
    ensures Flushes(r'.nextExpected - |out|, Contents(r), r'.nextExpected, out, Contents(r'))
  {
    var s := FirstPresent(r, r.nextExpected, r.highestReceived).value;
    SkipKeeps(r, s);
    DrainWalks(r.(nextExpected := s));
    TimeoutUnfolds(r, s);
    SkipFlushes(r, s, r', out);
  }

  lemma SkipFlushes(r: Receiver, s: nat, r': Receiver, out: seq<Payload>)
    requires ReceiverInv(r) && r.timerRunning
    requires r.nextExpected <= s <= r.highestReceived && Held(r, s)
    requires forall k: nat :: r.nextExpected <= k < s ==> !Held(r, k)
    requires Walkable(r') && Walked(r.(nextExpected := s), r', out)
    ensures ReceiverInv(r') && out != []
    ensures r'.delivered == r.delivered + |out| && r'.dropped == r.dropped
    ensures r'.nextExpected - |out| == s && IsLeast(s, Contents(r))
    ensures Flushes(s, Contents(r), r'.nextExpected, out, Contents(r'))
  {
    var r1 := r.(nextExpected := s);
    SkipKeeps(r, s);
    WalkedFlushes(r1, r', out);
    WalkedKeeps(r1, r', out);
    assert s in Contents(r1);
  }

  lemma TimeoutUnfolds(r: Receiver, s: nat)
    requires ReceiverInv(r)
    requires FirstPresent(r, r.nextExpected, r.highestReceived) == Some(s)
    ensures Timeout(r).0 == Drain(r.(nextExpected := s)).0
    ensures Timeout(r).1 == Drain(r.(nextExpected := s)).1
  {
    assert r.nextExpected % U32 == r.nextExpected && r.highestReceived % U32 == r.highestReceived;
  }

  lemma SkipKeeps(r: Receiver, s: nat)
    requires ReceiverInv(r) && r.timerRunning
    requires r.nextExpected <= s <= r.highestReceived && Held(r, s)
    requires forall k: nat :: r.nextExpected <= k < s ==> !Held(r, k)
    ensures var r1 := r.(nextExpected := s);
            Walkable(r1) && Labelled(r1) && TopHeld(r1) && Contents(r1) == Contents(r)
    ensures forall n: nat :: n in Contents(r) ==> n >= s
  {
    var r1 := r.(nextExpected := s);
    forall k: nat | InWindow(r1, k) && Held(r1, k) ensures InWindow(r, k) && Held(r, k) {
      if k >= r.nextExpected + WINDOW {
        SlotPeriodic(k - WINDOW, k);
        assert Held(r, k - WINDOW);
        assert false;
      }
    }
    forall k: nat | InWindow(r, k) && Held(r, k) ensures InWindow(r1, k) && Held(r1, k) && k >= s {
    }
  }
}
