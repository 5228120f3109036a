/**
 The uplink side of the UE's MAC: status PDUs wait in a queue for a grant, then in a pending list for their deadline.
 The class shows each operation's loops, run by one thread. The step machine below interleaves the threads. The queue is
 made for one consumer but has two, the opportunity thread and the caller of an immediate uplink, so taking from it is
 two steps: load the front position with its element, and store the next position.
*/
module UplinkMac {
  import opened Options

  /** An accepted status PDU: the how-many-th it was, and when it may be sent. */
  datatype Pdu = Pdu(id: nat, deadline: int)

  predicate Due(p: Pdu, now: int) {
    p.deadline <= now
  }

  function Ready(pending: seq<Pdu>, now: int): (res: seq<Pdu>)
    ensures forall p :: p in res ==> p in pending && Due(p, now)
  {
    if pending == [] then []
    else
      var k := |pending| - 1;
      Ready(pending[..k], now) + (if Due(pending[k], now) then [pending[k]] else [])
  }

  function Rest(pending: seq<Pdu>, now: int): (res: seq<Pdu>)
    ensures forall p :: p in res ==> p in pending && !Due(p, now)
  {
    if pending == [] then []
    else
      var k := |pending| - 1;
      Rest(pending[..k], now) + (if Due(pending[k], now) then [] else [pending[k]])
  }

  /** After `seen` items of `all`: the list holds the kept ones and the unseen ones, the cursor is between. */
  predicate Collecting(all: seq<Pdu>, seen: nat, now: int, list: seq<Pdu>, it: nat, batch: seq<Pdu>) {
    && seen <= |all|
    && list == Rest(all[..seen], now) + all[seen..]
    && it == |Rest(all[..seen], now)|
    && batch == Ready(all[..seen], now)
  }

  /** One turn of the loop. */
  lemma CollectTurn(all: seq<Pdu>, seen: nat, now: int, list: seq<Pdu>, it: nat, batch: seq<Pdu>)
    requires Collecting(all, seen, now, list, it, batch) && it < |list|
    ensures seen < |all| && list[it] == all[seen]
    ensures if Due(list[it], now)
            then Collecting(all, seen + 1, now, list[..it] + list[it + 1..], it, batch + [list[it]])
            else Collecting(all, seen + 1, now, list, it + 1, batch)
  {
    assert all[..seen + 1][..seen] == all[..seen];
    var kept := Rest(all[..seen], now);
    if Due(all[seen], now) {
      assert list[..it] + list[it + 1..] == kept + all[seen + 1..];
    } else {
      assert list == (kept + [all[seen]]) + all[seen + 1..];
    }
  }

  // ---------------------------------------------------------------------------------------------
  // The operations
  // ---------------------------------------------------------------------------------------------

  class MacReceiver {
    var txQueue: seq<Pdu>
    var pendingPdus: seq<Pdu>
    var txDelay: nat
    var running: bool
    var accepted: nat           // numbers the PDUs; stands for the identity of the objects
    ghost var finished: seq<Pdu>  // done with, and deleted
    ghost var sent: seq<Pdu>      // those of them that the callback was called with

    /** `room` is whether the queue takes the element. */
    method SendStatusPdu(now: int, room: bool) returns (ok: bool)
      modifies this`txQueue, this`accepted
      ensures ok <==> running && room
      ensures txQueue == if ok then old(txQueue) + [Pdu(old(accepted), now + txDelay)] else old(txQueue)
      ensures accepted == if ok then old(accepted) + 1 else old(accepted)
    {
      if !running {
        return false;
      }
      if room {
        txQueue := txQueue + [Pdu(accepted, now + txDelay)];
        accepted := accepted + 1;
        return true;
      }
      return false;
    }

    method ProcessTxOpportunity()
      modifies this`txQueue, this`pendingPdus
      ensures txQueue == [] && pendingPdus == old(pendingPdus) + old(txQueue)
    {
      while txQueue != []
        invariant pendingPdus + txQueue == old(pendingPdus) + old(txQueue)
        decreases |txQueue|
      {
        var pdu := txQueue[0];
        txQueue := txQueue[1..];
        pendingPdus := pendingPdus + [pdu];
      }
    }

    /** Hand the PDU to the callback if still running, then delete it. */
    method TransmitStatusPdu(pdu: Pdu, running: bool) returns (called: bool)
      modifies this`finished, this`sent
      ensures finished == old(finished) + [pdu]
      ensures sent == if running then old(sent) + [pdu] else old(sent)
      ensures called == running
    {
      called := running;
      if called {
        sent := sent + [pdu];
      }
      finished := finished + [pdu];
    }

    /** Erase while iterating: due PDUs move to a batch, the others stay. */
    method CollectReady(now: int) returns (readyPdus: seq<Pdu>)
      modifies this`pendingPdus
      ensures pendingPdus == Rest(old(pendingPdus), now)
      ensures readyPdus == Ready(old(pendingPdus), now)
    {
      readyPdus := [];
      var it := 0;
      ghost var seen, all := 0, pendingPdus;
      while it < |pendingPdus|
        invariant Collecting(all, seen, now, pendingPdus, it, readyPdus)
        decreases |pendingPdus| - it
      {
        CollectTurn(all, seen, now, pendingPdus, it, readyPdus);
        if Due(pendingPdus[it], now) {
          readyPdus := readyPdus + [pendingPdus[it]];
          pendingPdus := pendingPdus[..it] + pendingPdus[it + 1..];
        } else {
          it := it + 1;
        }
        seen := seen + 1;
      }
      assert all[..seen] == all;
    }

    method CheckAndTransmitPendingPdus(now: int)
      modifies this`pendingPdus, this`finished, this`sent
      ensures pendingPdus == Rest(old(pendingPdus), now)
      ensures finished == old(finished) + Ready(old(pendingPdus), now)
      ensures sent == if running then old(sent) + Ready(old(pendingPdus), now) else old(sent)
    {
      var readyPdus := CollectReady(now);
      for i := 0 to |readyPdus|
        invariant finished == old(finished) + readyPdus[..i]
        invariant sent == if running then old(sent) + readyPdus[..i] else old(sent)
        invariant pendingPdus == Rest(old(pendingPdus), now)
      {
        var _ := TransmitStatusPdu(readyPdus[i], running);
      }
    }

    /** Everything in the queue and then everything pending goes out, deadlines or not. */
    method ProcessImmediateUplink() returns (transmitted: bool)
      modifies this`txQueue, this`pendingPdus, this`finished, this`sent
      ensures txQueue == [] && pendingPdus == []
      ensures finished == old(finished) + old(txQueue) + old(pendingPdus)
      ensures sent == if running then old(sent) + old(txQueue) + old(pendingPdus) else old(sent)
      ensures transmitted <==> old(txQueue) != [] || old(pendingPdus) != []
    {
      transmitted := false;
      while txQueue != []
        invariant finished + txQueue == old(finished) + old(txQueue) && pendingPdus == old(pendingPdus)
        invariant if running then sent + txQueue == old(sent) + old(txQueue) else sent == old(sent)
        invariant old(txQueue) != [] ==> transmitted || txQueue != []
        invariant transmitted ==> old(txQueue) != []
        decreases |txQueue|
      {
        var pdu := txQueue[0];
        txQueue := txQueue[1..];
        var _ := TransmitStatusPdu(pdu, running);
        transmitted := true;
      }
      var temp := pendingPdus;
      pendingPdus := [];
      ghost var before, sentBefore := finished, sent;
      for i := 0 to |temp|
        invariant finished == before + temp[..i] && txQueue == [] && pendingPdus == []
        invariant sent == if running then sentBefore + temp[..i] else sentBefore
        invariant transmitted <==> old(txQueue) != [] || i > 0
      {
        var _ := TransmitStatusPdu(temp[i], running);
        transmitted := true;
      }
    }
  }

  // ---------------------------------------------------------------------------------------------
  // The threads
  // ---------------------------------------------------------------------------------------------

  /** The two threads that take from the queue. */
  datatype Taker = Opportunity | Uplink

  function Other(x: Taker): Taker {
    if x.Opportunity? then Uplink else Opportunity
  }

  /** The position a thread has loaded and not yet stored past, or the PDU it has taken and not yet dealt with. */
  datatype Hand = Hand(loaded: Option<nat>, held: Option<Pdu>)

  const EMPTY_HAND := Hand(None, None)

  /**
   Where PDUs can be. The queue holds the accepted ones from `front` on. `granted` is the hand of the opportunity
   thread, before it puts a PDU on the pending list; `batch` are those the transmission thread has collected; `direct`
   and `swapped` are what an immediate uplink has taken from the queue and from the pending list. `log` has each
   finished PDU with the time it was finished at.
  */
  datatype Mac = Mac(
    now: int, delay: nat, accepted: seq<Pdu>, front: nat, granted: Hand, pending: seq<Pdu>,
    batch: seq<Pdu>, direct: Hand, swapped: seq<Pdu>, log: seq<(Pdu, int)>)

  function Queue(m: Mac): seq<Pdu> {
    if m.front <= |m.accepted| then m.accepted[m.front..] else []
  }

  function HandOf(m: Mac, x: Taker): Hand {
    if x.Opportunity? then m.granted else m.direct
  }

  function WithHand(m: Mac, x: Taker, h: Hand): Mac {
    if x.Opportunity? then m.(granted := h) else m.(direct := h)
  }

  datatype Step =
    | Tick(d: nat)
    | Accept
    | Load(who: Taker)      // a thread loads the front of the queue and reads the PDU there
    | Store(who: Taker)     // and stores the next position as the front
    | Append               // the opportunity thread puts its PDU on the pending list
    | Collect              // the transmission thread takes what is due
    | Transmit             // and finishes one PDU
    | FinishDirect         // immediate uplink: finishes the PDU from the queue
    | Swap                 // takes the whole pending list
    | FinishSwapped        // and finishes one PDU

  predicate Immediate(e: Step) {
    e.FinishDirect? || e.Swap? || e.FinishSwapped? || ((e.Load? || e.Store?) && e.who.Uplink?)
  }

  function Finish(m: Mac, p: Pdu): Mac {
    m.(log := m.log + [(p, m.now)])
  }

  ghost predicate Next(m: Mac, e: Step, m': Mac) {
    match e
    case Tick(d) => m' == m.(now := m.now + d)
    case Accept => m' == m.(accepted := m.accepted + [Pdu(|m.accepted|, m.now + m.delay)])
    case Load(x) =>
      HandOf(m, x) == EMPTY_HAND && m.front < |m.accepted| && m' == WithHand(m, x, Hand(Some(m.front), None))
    case Store(x) =>
      && HandOf(m, x).loaded.Some? && HandOf(m, x).loaded.value < |m.accepted|
      && m' == Stored(m, x, HandOf(m, x).loaded.value)
    case Append =>
      m.granted.held.Some? && m' == m.(granted := EMPTY_HAND, pending := m.pending + [m.granted.held.value])
    case Collect =>
      m.batch == [] && m' == m.(batch := Ready(m.pending, m.now), pending := Rest(m.pending, m.now))
    case Transmit =>
      m.batch != [] && m' == Finish(m, m.batch[0]).(batch := m.batch[1..])
    case FinishDirect =>
      m.direct.held.Some? && m' == Finish(m, m.direct.held.value).(direct := EMPTY_HAND)
    case Swap =>
      m.swapped == [] && m' == m.(swapped := m.pending, pending := [])
    case FinishSwapped =>
      m.swapped != [] && m' == Finish(m, m.swapped[0]).(swapped := m.swapped[1..])
  }

  /** The front is stored from what was loaded, whatever it is now. */
  function Stored(m: Mac, x: Taker, position: nat): Mac
    requires position < |m.accepted|
  {
    WithHand(m.(front := position + 1), x, Hand(None, Some(m.accepted[position])))
  }

  ghost predicate IsRun(ms: seq<Mac>, es: seq<Step>, delay: nat) {
    && |ms| == |es| + 1
    && ms[0].(now := 0) == Mac(0, delay, [], 0, EMPTY_HAND, [], [], EMPTY_HAND, [], [])
    && forall i :: 0 <= i < |es| ==> Next(ms[i], es[i], ms[i + 1])
  }

  ghost predicate Reachable(m: Mac, delay: nat) {
    exists ms: seq<Mac>, es: seq<Step> :: IsRun(ms, es, delay) && ms[|es|] == m
  }

  lemma ReachableStart(delay: nat, now: int)
    ensures Reachable(Mac(now, delay, [], 0, EMPTY_HAND, [], [], EMPTY_HAND, [], []), delay)
  {
    var m := Mac(now, delay, [], 0, EMPTY_HAND, [], [], EMPTY_HAND, [], []);
    var ms: seq<Mac>, es: seq<Step> := [m], [];
    assert IsRun(ms, es, delay) && ms[|es|] == m;
  }

  lemma ReachableStep(delay: nat, m: Mac, e: Step, m': Mac)
    requires Reachable(m, delay) && Next(m, e, m')
    ensures Reachable(m', delay)
  {
    var ms: seq<Mac>, es: seq<Step> :| IsRun(ms, es, delay) && ms[|es|] == m;
    var ms', es' := ms + [m'], es + [e];
    assert IsRun(ms', es', delay) && ms'[|es'|] == m';
  }

  function Held(o: Option<Pdu>): seq<Pdu> {
    if o.Some? then [o.value] else []
  }

  function Finished(log: seq<(Pdu, int)>): (res: seq<Pdu>)
    ensures |res| == |log| && forall i :: 0 <= i < |log| ==> res[i] == log[i].0
  {
    if log == [] then [] else Finished(log[..|log| - 1]) + [log[|log| - 1].0]
  }

  // ---------------------------------------------------------------------------------------------
  // Places
  // ---------------------------------------------------------------------------------------------

  function Times(s: seq<Pdu>, p: Pdu): nat {
    multiset(s)[p]
  }

  /** How often `p` occurs in all places outside the queue. */
  function Out(m: Mac, p: Pdu): nat {
    Times(Held(m.granted.held), p) + Times(m.pending, p) + Times(m.batch, p)
    + Times(Held(m.direct.held), p) + Times(m.swapped, p) + Times(Finished(m.log), p)
  }

  lemma {:induction false} ReadyAndRest(pending: seq<Pdu>, now: int, p: Pdu)
    ensures Times(pending, p) == Times(Ready(pending, now), p) + Times(Rest(pending, now), p)
  {
    if pending != [] {
      var k := |pending| - 1;
      ReadyAndRest(pending[..k], now, p);
      assert pending == pending[..k] + [pending[k]];
      BackSplit(pending[..k], pending[k], p);
      BackSplit(Ready(pending[..k], now), pending[k], p);
      BackSplit(Rest(pending[..k], now), pending[k], p);
    }
  }

  lemma FrontSplit(s: seq<Pdu>, p: Pdu)
    requires s != []
    ensures Times(s, p) == Times([s[0]], p) + Times(s[1..], p)
  {
    assert s == [s[0]] + s[1..];
  }

  lemma BackSplit(s: seq<Pdu>, q: Pdu, p: Pdu)
    ensures Times(s + [q], p) == Times(s, p) + Times([q], p)
  {
  }

  lemma FinishedOne(log: seq<(Pdu, int)>, p: Pdu, t: int)
    ensures Finished(log + [(p, t)]) == Finished(log) + [p]
  {
    assert (log + [(p, t)])[..|log|] == log;
  }

  lemma CollectMoves(m: Mac, e: Step, m': Mac, p: Pdu)
    requires Next(m, e, m') && (e.Append? || e.Collect? || e.Swap?)
    ensures Out(m', p) == Out(m, p)
  {
    if e.Append? {
      BackSplit(m.pending, m.granted.held.value, p);
    } else if e.Collect? {
      ReadyAndRest(m.pending, m.now, p);
    }
  }

  lemma TransmitMoves(m: Mac, e: Step, m': Mac, p: Pdu)
    requires Next(m, e, m') && (e.Transmit? || e.FinishDirect? || e.FinishSwapped?)
    ensures Out(m', p) == Out(m, p)
  {
    if e.Transmit? {
      FinishMoves(m, m.batch, p);
    } else if e.FinishDirect? {
      FinishMoves(m, Held(m.direct.held), p);
    } else {
      FinishMoves(m, m.swapped, p);
    }
  }

  lemma FinishMoves(m: Mac, from: seq<Pdu>, p: Pdu)
    requires from != []
    ensures Times(Finished(Finish(m, from[0]).log), p) + Times(from[1..], p)
         == Times(Finished(m.log), p) + Times(from, p)
  {
    FrontSplit(from, p);
    FinishedOne(m.log, from[0], m.now);
    BackSplit(Finished(m.log), from[0], p);
  }

  /** A thread that has loaded a position holds nothing. */
  predicate HandsOk(m: Mac) {
    && (m.granted.loaded.Some? ==> m.granted.held.None? && m.granted.loaded.value < |m.accepted|)
    && (m.direct.loaded.Some? ==> m.direct.held.None? && m.direct.loaded.value < |m.accepted|)
  }

  lemma HandsStep(m: Mac, e: Step, m': Mac)
    requires Next(m, e, m') && HandsOk(m)
    ensures HandsOk(m')
  {
  }

  lemma StoreMoves(m: Mac, e: Step, m': Mac, p: Pdu)
    requires Next(m, e, m') && HandsOk(m) && e.Store?
    ensures Out(m', p) == Out(m, p) + if m.accepted[HandOf(m, e.who).loaded.value] == p then 1 else 0
  {
    var q := m.accepted[HandOf(m, e.who).loaded.value];
    assert Held(Some(q)) == [q];
  }

  predicate SamePlaces(m: Mac, m': Mac) {
    && m'.granted.held == m.granted.held && m'.pending == m.pending && m'.batch == m.batch
    && m'.direct.held == m.direct.held && m'.swapped == m.swapped && m'.log == m.log
  }

  lemma OthersStay(m: Mac, e: Step, m': Mac)
    requires Next(m, e, m') && (e.Tick? || e.Accept? || e.Load?)
    ensures SamePlaces(m, m')
  {
  }

  /** Only a store adds to what is outside the queue, namely the PDU at the position that was loaded. */
  lemma StepMoves(m: Mac, e: Step, m': Mac, p: Pdu)
    requires Next(m, e, m') && HandsOk(m)
    ensures Out(m', p) == Out(m, p) + if e.Store? && m.accepted[HandOf(m, e.who).loaded.value] == p then 1 else 0
  {
    if e.Append? || e.Collect? || e.Swap? {
      CollectMoves(m, e, m', p);
    } else if e.Transmit? || e.FinishDirect? || e.FinishSwapped? {
      TransmitMoves(m, e, m', p);
    } else if e.Store? {
      StoreMoves(m, e, m', p);
    } else {
      OthersStay(m, e, m');
    }
  }

  /** PDUs are numbered in the order accepted. */
  predicate Numbered(m: Mac) {
    forall i :: 0 <= i < |m.accepted| ==> m.accepted[i].id == i
  }

  lemma {:induction false} RunHands(ms: seq<Mac>, es: seq<Step>, delay: nat, i: nat)
    requires IsRun(ms, es, delay) && i < |ms|
    ensures HandsOk(ms[i]) && Numbered(ms[i])
  {
    if i > 0 {
      RunHands(ms, es, delay, i - 1);
      assert Next(ms[i - 1], es[i - 1], ms[i - 1 + 1]);
      HandsStep(ms[i - 1], es[i - 1], ms[i]);
    }
  }

  // ---------------------------------------------------------------------------------------------
  // Overlapping takes
  // ---------------------------------------------------------------------------------------------

  /** Thread `x` loads at `a` and stores what it loaded at `b`, and the other thread stores in between. */
  predicate Overlap(es: seq<Step>, x: Taker, a: nat, s: nat, b: nat) {
    && a < s < b < |es|
    && es[a] == Load(x) && es[s] == Store(Other(x)) && es[b] == Store(x)
    && forall k :: a < k < b ==> es[k] != Store(x)
  }

  /** No store of the first `i` steps falls between another take's load and store. */
  ghost predicate Apart(es: seq<Step>, i: nat) {
    forall x: Taker, a: nat, s: nat, b: nat :: b < i ==> !Overlap(es, x, a, s, b)
  }

  /** The load a thread has not stored past yet, at step `a`. */
  predicate LoadedAt(ms: seq<Mac>, es: seq<Step>, x: Taker, a: nat, i: nat)
    requires i <= |es| < |ms|
  {
    && a < i && es[a] == Load(x) && HandOf(ms[i], x).loaded == Some(ms[a].front)
    && forall k :: a < k < i ==> es[k] != Store(x)
  }

  lemma {:induction false} FindLoad(ms: seq<Mac>, es: seq<Step>, delay: nat, x: Taker, i: nat) returns (a: nat)
    requires IsRun(ms, es, delay) && i <= |es| && HandOf(ms[i], x).loaded.Some?
    ensures LoadedAt(ms, es, x, a, i)
  {
    assert Next(ms[i - 1], es[i - 1], ms[i - 1 + 1]);
    if es[i - 1] == Load(x) {
      a := i - 1;
    } else {
      a := FindLoad(ms, es, delay, x, i - 1);
    }
  }

  /** Since a load, as long as takes are apart, the front has moved exactly if the other thread has stored. */
  lemma {:induction false} FrontSince(ms: seq<Mac>, es: seq<Step>, delay: nat, x: Taker, a: nat, j: nat)
    requires IsRun(ms, es, delay) && a < j <= |es| && Apart(es, j) && es[a] == Load(x)
    requires forall k :: a < k < j ==> es[k] != Store(x)
    ensures ms[j].front >= ms[a].front
    ensures ms[j].front == ms[a].front <==> forall s :: a < s < j ==> es[s] != Store(Other(x))
    decreases j, 0
  {
    var k := j - 1;
    assert Next(ms[k], es[k], ms[k + 1]);
    if a < k {
      FrontSince(ms, es, delay, x, a, k);
      if es[k] == Store(Other(x)) {
        StoreIsFresh(ms, es, delay, Other(x), k);
      }
    }
  }

  /** As long as takes are apart, a store finds the front where it was loaded. */
  lemma {:induction false} StoreIsFresh(ms: seq<Mac>, es: seq<Step>, delay: nat, x: Taker, b: nat)
    requires IsRun(ms, es, delay) && b < |es| && Apart(es, b + 1) && es[b] == Store(x)
    ensures HandOf(ms[b], x).loaded == Some(ms[b].front)
    decreases b, 1
  {
    assert Next(ms[b], es[b], ms[b + 1]);
    var a := FindLoad(ms, es, delay, x, b);
    FrontSince(ms, es, delay, x, a, b);
    forall s | a < s < b ensures es[s] != Store(Other(x)) {
      assert !Overlap(es, x, a, s, b);
    }
  }

  lemma {:induction false} OccursOnce(s: seq<Pdu>, p: Pdu)
    requires forall i, j :: 0 <= i < j < |s| ==> s[i].id < s[j].id
    requires p in s
    ensures Times(s, p) == 1
  {
    var k := |s| - 1;
    assert s == s[..k] + [s[k]];
    if p == s[k] {
      assert p !in s[..k];
    } else {
      OccursOnce(s[..k], p);
    }
  }

  // ---------------------------------------------------------------------------------------------
  // Exactly one place, at most once
  // ---------------------------------------------------------------------------------------------

  /** How often `p` occurs in all places together. */
  function Places(m: Mac, p: Pdu): nat {
    Times(Queue(m), p) + Out(m, p)
  }

  /** All places together hold exactly the accepted PDUs. */
  ghost predicate Partition(m: Mac) {
    m.front <= |m.accepted| && forall p :: Places(m, p) == Times(m.accepted, p)
  }

  lemma QueueAfter(m: Mac, e: Step, m': Mac, p: Pdu)
    requires Next(m, e, m') && m.front <= |m.accepted|
    requires e.Store? ==> HandOf(m, e.who).loaded.value == m.front
    ensures m'.front <= |m'.accepted|
    ensures Times(Queue(m'), p) - Times(m'.accepted, p)
         == Times(Queue(m), p) - Times(m.accepted, p) - if e.Store? && m.accepted[m.front] == p then 1 else 0
  {
    if e.Accept? {
      var q := Pdu(|m.accepted|, m.now + m.delay);
      BackSplit(m.accepted, q, p);
      BackSplit(Queue(m), q, p);
      assert Queue(m') == Queue(m) + [q];
    } else if e.Store? {
      FrontSplit(Queue(m), p);
      assert Queue(m') == Queue(m)[1..];
    }
  }

  lemma PartitionStep(m: Mac, e: Step, m': Mac)
    requires Partition(m) && HandsOk(m) && Next(m, e, m')
    requires e.Store? ==> HandOf(m, e.who).loaded.value == m.front
    ensures Partition(m')
  {
    QueueAfter(m, e, m', Pdu(0, 0));
    forall p ensures Places(m', p) == Times(m'.accepted, p) {
      StepMoves(m, e, m', p);
      QueueAfter(m, e, m', p);
    }
  }

  lemma {:induction false} RunPartition(ms: seq<Mac>, es: seq<Step>, delay: nat, i: nat)
    requires IsRun(ms, es, delay) && i <= |es| && Apart(es, i)
    ensures Partition(ms[i])
  {
    if i > 0 {
      var k := i - 1;
      RunPartition(ms, es, delay, k);
      RunHands(ms, es, delay, k);
      if es[k].Store? {
        StoreIsFresh(ms, es, delay, es[k].who, k);
      }
      assert Next(ms[k], es[k], ms[k + 1]);
      PartitionStep(ms[k], es[k], ms[i]);
    }
  }

  lemma {:induction false} LoadKept(ms: seq<Mac>, es: seq<Step>, delay: nat, x: Taker, a: nat, j: nat)
    requires IsRun(ms, es, delay) && a < j <= |es| && es[a] == Load(x)
    requires forall k :: a < k < j ==> es[k] != Store(x)
    ensures HandOf(ms[j], x) == Hand(Some(ms[a].front), None)
  {
    var k := j - 1;
    assert Next(ms[k], es[k], ms[k + 1]);
    if a < k {
      LoadKept(ms, es, delay, x, a, k);
    }
  }

  /** Once the front has passed a position, the PDU there is in one place outside the queue. */
  lemma PassedIsOut(m: Mac, k: nat)
    requires Partition(m) && Numbered(m) && k < m.front
    ensures Out(m, m.accepted[k]) == 1
  {
    OccursOnce(m.accepted, m.accepted[k]);
    forall j | 0 <= j < |Queue(m)| ensures Queue(m)[j] != m.accepted[k] {
      assert Queue(m)[j] == m.accepted[m.front + j];
    }
    assert m.accepted[k] !in Queue(m);
  }

  /** The first store that falls into another take doubles the PDU. */
  lemma OverlapDoubles(ms: seq<Mac>, es: seq<Step>, delay: nat, x: Taker, a: nat, s: nat, b: nat)
    requires IsRun(ms, es, delay) && b < |es| && Apart(es, b) && Overlap(es, x, a, s, b)
    ensures ms[a].front < |ms[b].accepted| <= |ms[b + 1].accepted|
    ensures Out(ms[b + 1], ms[b + 1].accepted[ms[a].front]) == 2
  {
    RunPartition(ms, es, delay, b);
    RunHands(ms, es, delay, b);
    LoadKept(ms, es, delay, x, a, b);
    FrontSince(ms, es, delay, x, a, b);
    PassedIsOut(ms[b], ms[a].front);
    assert Next(ms[b], es[b], ms[b + 1]);
    StepMoves(ms[b], es[b], ms[b + 1], ms[b].accepted[ms[a].front]);
  }

  lemma DoubledNow(ms: seq<Mac>, es: seq<Step>, delay: nat, j: nat, i: nat) returns (k: nat)
    requires IsRun(ms, es, delay) && i == j + 1 <= |es| && Apart(es, j) && !Apart(es, i)
    ensures k < |ms[i].accepted| && Out(ms[i], ms[i].accepted[k]) >= 2
  {
    var x: Taker, a: nat, s: nat, b: nat :| b < i && Overlap(es, x, a, s, b);
    assert b == j;
    OverlapDoubles(ms, es, delay, x, a, s, j);
    k := ms[a].front;
  }

  lemma AcceptedGrows(m: Mac, e: Step, m': Mac)
    requires Next(m, e, m')
    ensures m.accepted <= m'.accepted
  {
  }

  lemma DoubledNext(m: Mac, e: Step, m': Mac, k: nat)
    requires HandsOk(m) && Next(m, e, m') && k < |m.accepted| && Out(m, m.accepted[k]) >= 2
    ensures k < |m'.accepted| && Out(m', m'.accepted[k]) >= 2
  {
    var p := m.accepted[k];
    AcceptedGrows(m, e, m');
    assert m'.accepted[k] == p;
    assert Out(m', p) >= 2 by {
      StepMoves(m, e, m', p);
    }
  }

  /** And it stays doubled. */
  lemma {:induction false} StaysDoubled(ms: seq<Mac>, es: seq<Step>, delay: nat, i: nat) returns (k: nat)
    requires IsRun(ms, es, delay) && i <= |es| && !Apart(es, i)
    ensures k < |ms[i].accepted| && Out(ms[i], ms[i].accepted[k]) >= 2
  {
    var j := i - 1;
    if Apart(es, j) {
      k := DoubledNow(ms, es, delay, j, i);
    } else {
      k := StaysDoubled(ms, es, delay, j);
      RunHands(ms, es, delay, j);
      assert Next(ms[j], es[j], ms[j + 1]);
      DoubledNext(ms[j], es[j], ms[i], k);
    }
  }

  /**
   Every accepted PDU is in exactly one place, and so is transmitted at most once, if and only if no store of the front
   by one thread has fallen between another thread's load and its store.
  */
  lemma ExactlyOnePlaceIffApart(ms: seq<Mac>, es: seq<Step>, delay: nat, i: nat)
    requires IsRun(ms, es, delay) && i <= |es|
    ensures (forall k :: 0 <= k < |ms[i].accepted| ==> Places(ms[i], ms[i].accepted[k]) == 1) <==> Apart(es, i)
  {
    if Apart(es, i) {
      RunPartition(ms, es, delay, i);
      RunHands(ms, es, delay, i);
      forall k | 0 <= k < |ms[i].accepted| ensures Places(ms[i], ms[i].accepted[k]) == 1 {
        OccursOnce(ms[i].accepted, ms[i].accepted[k]);
      }
    } else {
      var k := StaysDoubled(ms, es, delay, i);
      assert Places(ms[i], ms[i].accepted[k]) != 1;
    }
  }

  /** A grant and an immediate uplink load the same front, and both take the PDU there. */
  lemma BothTake(delay: nat, now: int, a: Pdu)
    requires a == Pdu(0, now + delay)
    ensures Reachable(Mac(now, delay, [a], 1, Hand(None, Some(a)), [], [], Hand(None, Some(a)), [], []), delay)
  {
    var m0 := Mac(now, delay, [], 0, EMPTY_HAND, [], [], EMPTY_HAND, [], []);
    var m1 := m0.(accepted := [a]);
    var m2 := m1.(granted := Hand(Some(0), None));
    var m3 := m2.(direct := Hand(Some(0), None));
    var m4 := m3.(front := 1, granted := Hand(None, Some(a)));
    ReachableStart(delay, now);
    ReachableStep(delay, m0, Accept, m1);
    ReachableStep(delay, m1, Load(Opportunity), m2);
    ReachableStep(delay, m2, Load(Uplink), m3);
    ReachableStep(delay, m3, Store(Opportunity), m4);
    ReachableStep(delay, m4, Store(Uplink), m4.(direct := Hand(None, Some(a))));
  }

  /** Both then transmit, and delete, it. */
  lemma OverlapTransmitsTwice(delay: nat, now: int) returns (m: Mac)
    ensures Reachable(m, delay) && |m.accepted| == 1 && Finished(m.log) == [m.accepted[0], m.accepted[0]]
  {
    var a := Pdu(0, now + delay);
    var m5 := Mac(now, delay, [a], 1, Hand(None, Some(a)), [], [], Hand(None, Some(a)), [], []);
    var m6 := m5.(direct := EMPTY_HAND, log := [(a, now)]);
    var m7 := m6.(granted := EMPTY_HAND, pending := [a]);
    var m8 := m7.(swapped := [a], pending := []);
    m := m8.(swapped := [], log := [(a, now), (a, now)]);
    BothTake(delay, now, a);
    ReachableStep(delay, m5, FinishDirect, m6);
    ReachableStep(delay, m6, Append, m7);
    ReachableStep(delay, m7, Swap, m8);
    ReachableStep(delay, m8, FinishSwapped, m);
    FinishedTwo(a, a, now);
  }

  // ---------------------------------------------------------------------------------------------
  // Order, deadlines and grants, without immediate uplinks
  // ---------------------------------------------------------------------------------------------

  predicate ByDeadline(s: seq<Pdu>) {
    forall i, j :: 0 <= i < j < |s| ==> s[i].deadline <= s[j].deadline
  }

  lemma {:induction false} AllDue(pending: seq<Pdu>, now: int)
    requires forall i :: 0 <= i < |pending| ==> Due(pending[i], now)
    ensures Ready(pending, now) == pending && Rest(pending, now) == []
  {
    if pending != [] {
      var k := |pending| - 1;
      var front := pending[..k];
      AllDue(front, now);
      assert front + [pending[k]] == pending;
      assert Ready(pending, now) == Ready(front, now) + [pending[k]];
    }
  }

  /** With deadlines in order, what is due is a prefix. */
  lemma {:induction false} ReadyIsPrefix(pending: seq<Pdu>, now: int)
    requires ByDeadline(pending)
    ensures Ready(pending, now) + Rest(pending, now) == pending
  {
    if pending != [] {
      var k := |pending| - 1;
      if Due(pending[k], now) {
        AllDue(pending, now);
      } else {
        ReadyIsPrefix(pending[..k], now);
        assert pending[..k] + [pending[k]] == pending;
        Associate(Ready(pending[..k], now), Rest(pending[..k], now), [pending[k]]);
      }
    }
  }

  lemma Associate(a: seq<Pdu>, b: seq<Pdu>, c: seq<Pdu>)
    ensures (a + b) + c == a + (b + c)
  {
  }

  /** What has left the queue under a grant, in order. */
  function Granted(m: Mac): seq<Pdu> {
    Finished(m.log) + m.batch + m.pending + Held(m.granted.held)
  }

  /** Every finished PDU was due when it was finished; so is every collected one now. */
  predicate InTime(m: Mac) {
    && (forall i :: 0 <= i < |m.log| ==> Due(m.log[i].0, m.log[i].1))
    && (forall i :: 0 <= i < |m.batch| ==> Due(m.batch[i], m.now))
  }

  ghost predicate Ordered(m: Mac) {
    && m.direct == EMPTY_HAND && m.swapped == []
    && m.front <= |m.accepted| && Granted(m) + Queue(m) == m.accepted
    && (m.granted.loaded.Some? ==> m.granted == Hand(Some(m.front), None) && m.front < |m.accepted|)
    && ByDeadline(m.accepted)
    && (forall i :: 0 <= i < |m.accepted| ==> m.accepted[i].deadline <= m.now + m.delay)
    && InTime(m)
  }

  lemma PendingByDeadline(m: Mac)
    requires Ordered(m)
    ensures ByDeadline(m.pending)
  {
    var k := |Finished(m.log) + m.batch|;
    assert forall i :: 0 <= i < |m.pending| ==> m.pending[i] == m.accepted[k + i];
  }

  lemma CollectKeeps(m: Mac, m': Mac)
    requires Ordered(m) && Next(m, Collect, m')
    ensures Ordered(m')
  {
    PendingByDeadline(m);
    ReadyIsPrefix(m.pending, m.now);
    Associate(Finished(m.log), m'.batch, m'.pending);
    assert Finished(m.log) + m.batch == Finished(m.log);
    assert Granted(m') == Granted(m);
  }

  lemma TransmitInTime(m: Mac, m': Mac)
    requires InTime(m) && Next(m, Transmit, m')
    ensures InTime(m')
  {
  }

  lemma TransmitKeeps(m: Mac, m': Mac)
    requires Ordered(m) && Next(m, Transmit, m')
    ensures Ordered(m')
  {
    FinishedOne(m.log, m.batch[0], m.now);
    assert [m.batch[0]] + m'.batch == m.batch;
    assert Finished(m'.log) + m'.batch == Finished(m.log) + m.batch;
    assert Granted(m') == Granted(m) && Queue(m') == Queue(m);
    TransmitInTime(m, m');
  }

  lemma AcceptKeeps(m: Mac, m': Mac)
    requires Ordered(m) && Next(m, Accept, m')
    ensures Ordered(m')
  {
    var p := m'.accepted[|m.accepted|];
    assert Queue(m') == Queue(m) + [p];
    assert Granted(m') + Queue(m') == Granted(m) + Queue(m) + [p];
  }

  lemma TakeKeeps(m: Mac, e: Step, m': Mac)
    requires Ordered(m) && Next(m, e, m') && (e == Load(Opportunity) || e == Store(Opportunity))
    ensures Ordered(m')
  {
    if e.Store? {
      assert Queue(m) == [m.accepted[m.front]] + Queue(m');
      assert Granted(m') == Granted(m) + [m.accepted[m.front]];
    }
  }

  lemma OrderedStep(m: Mac, e: Step, m': Mac)
    requires Ordered(m) && Next(m, e, m') && !Immediate(e)
    ensures Ordered(m')
  {
    match e
    case Tick(_) =>
    case Accept => AcceptKeeps(m, m');
    case Load(_) => TakeKeeps(m, e, m');
    case Store(_) => TakeKeeps(m, e, m');
    case Append => assert Granted(m') == Granted(m);
    case Collect => CollectKeeps(m, m');
    case Transmit => TransmitKeeps(m, m');
  }

  lemma {:induction false} RunOrdered(ms: seq<Mac>, es: seq<Step>, delay: nat, i: nat)
    requires IsRun(ms, es, delay) && i < |ms|
    requires forall k :: 0 <= k < i ==> !Immediate(es[k])
    ensures Ordered(ms[i])
  {
    if i > 0 {
      RunOrdered(ms, es, delay, i - 1);
      OrderedStep(ms[i - 1], es[i - 1], ms[i]);
    }
  }

  /**
   Without immediate uplinks and with a constant delay: PDUs go out in the order accepted, none before its deadline, and
   only what a grant took from the queue has gone out.
  */
  lemma SentInOrderAfterDeadline(ms: seq<Mac>, es: seq<Step>, delay: nat, i: nat)
    requires IsRun(ms, es, delay) && i < |ms|
    requires forall k :: 0 <= k < i ==> !Immediate(es[k])
    ensures var m := ms[i];
            && |m.log| <= m.front <= |m.accepted|
            && (forall k :: 0 <= k < |m.log| ==> m.log[k].0 == m.accepted[k] && m.log[k].0.deadline <= m.log[k].1)
  {
    RunOrdered(ms, es, delay, i);
    var m := ms[i];
    assert forall k :: 0 <= k < |m.log| ==> (Granted(m) + Queue(m))[k] == Finished(m.log)[k];
  }

  // ---------------------------------------------------------------------------------------------
  // The condition behind the order
  // ---------------------------------------------------------------------------------------------

  /** Collecting keeps the order, whenever it happens, exactly if the deadlines on the list do not decrease. */
  lemma OrderKeptIffByDeadline(pending: seq<Pdu>)
    requires forall i, j :: 0 <= i < j < |pending| ==> pending[i].id < pending[j].id
    ensures (forall now :: Ready(pending, now) + Rest(pending, now) == pending) <==> ByDeadline(pending)
  {
    if ByDeadline(pending) {
      forall now ensures Ready(pending, now) + Rest(pending, now) == pending {
        ReadyIsPrefix(pending, now);
      }
    } else {
      var i, j :| 0 <= i < j < |pending| && pending[i].deadline > pending[j].deadline;
      LaterDueFirst(pending, i, j);
    }
  }

  lemma LaterDueFirst(pending: seq<Pdu>, i: nat, j: nat)
    requires forall a, b :: 0 <= a < b < |pending| ==> pending[a].id < pending[b].id
    requires i < j < |pending| && pending[i].deadline > pending[j].deadline
    ensures var now := pending[j].deadline; Ready(pending, now) + Rest(pending, now) != pending
  {
    var now := pending[j].deadline;
    ReadyHas(pending, now, j);
    PrefixHasAll(pending, Ready(pending, now), Rest(pending, now), i, j);
  }

  lemma {:induction false} ReadyHas(pending: seq<Pdu>, now: int, j: nat)
    requires j < |pending| && Due(pending[j], now)
    ensures pending[j] in Ready(pending, now)
  {
    if j < |pending| - 1 {
      ReadyHas(pending[..|pending| - 1], now, j);
    }
  }

  /** If a sequence without repeats is cut so that item `j` is in the first part, so is every earlier item. */
  lemma PrefixHasAll(s: seq<Pdu>, front: seq<Pdu>, back: seq<Pdu>, i: nat, j: nat)
    requires forall a, b :: 0 <= a < b < |s| ==> s[a].id < s[b].id
    requires i < j < |s| && s[j] in front
    ensures front + back == s ==> s[i] in front
  {
    if front + back == s {
      var k :| 0 <= k < |front| && front[k] == s[j];
      assert s[k] == front[k];
      assert s[i] == front[i];
    }
  }

  predicate Ascending(s: seq<Pdu>) {
    forall i, j :: 0 <= i < j < |s| ==> s[i].id < s[j].id
  }

  /** In the order accepted, and all among the first `n`. */
  predicate InOrder(s: seq<Pdu>, n: nat) {
    Ascending(s) && forall i :: 0 <= i < |s| ==> s[i].id < n
  }

  lemma WithoutMiddle(a: seq<Pdu>, b: seq<Pdu>, c: seq<Pdu>, n: nat)
    requires InOrder(a + b + c, n)
    ensures InOrder(a + c, n)
  {
    var s := a + b + c;
    assert forall i :: 0 <= i < |a| ==> (a + c)[i] == s[i];
    assert forall i :: |a| <= i < |a + c| ==> (a + c)[i] == s[i + |b|];
  }

  lemma {:induction false} RestInOrder(pending: seq<Pdu>, tail: seq<Pdu>, now: int, n: nat)
    requires InOrder(pending + tail, n)
    ensures InOrder(Rest(pending, now) + tail, n)
    decreases |pending|
  {
    if pending == [] {
      assert Rest(pending, now) == pending;
    } else {
      var front, x := pending[..|pending| - 1], pending[|pending| - 1];
      assert pending + tail == front + ([x] + tail);
      RestInOrder(front, [x] + tail, now, n);
      var kept := Rest(front, now);
      assert kept + ([x] + tail) == kept + [x] + tail;
      if Due(x, now) {
        WithoutMiddle(kept, [x], tail, n);
        assert Rest(pending, now) == kept;
      } else {
        assert Rest(pending, now) == kept + [x];
      }
    }
  }

  /** What waits for its deadline or for a grant. */
  function Waiting(m: Mac): seq<Pdu> {
    m.pending + Held(m.granted.held) + Queue(m)
  }

  predicate WaitsInOrder(m: Mac) {
    InOrder(Waiting(m), |m.accepted|)
  }

  lemma CollectKeepsWaiting(m: Mac, m': Mac)
    requires WaitsInOrder(m) && Next(m, Collect, m')
    ensures WaitsInOrder(m')
  {
    var tail := Held(m.granted.held) + Queue(m);
    assert Waiting(m) == m.pending + tail && Waiting(m') == m'.pending + tail;
    RestInOrder(m.pending, tail, m.now, |m.accepted|);
  }

  lemma TakeKeepsWaiting(m: Mac, e: Step, m': Mac)
    requires WaitsInOrder(m) && HandsOk(m) && Next(m, e, m') && e.Store?
    requires m.front < |m.accepted| && HandOf(m, e.who).loaded.value == m.front
    ensures WaitsInOrder(m')
  {
    var x, before := m.accepted[m.front], m.pending + Held(m.granted.held);
    assert Queue(m) == [x] + Queue(m');
    if e.who.Opportunity? {
      assert Held(m'.granted.held) == [x];
      assert Waiting(m') == Waiting(m);
    } else {
      assert Waiting(m) == before + [x] + Queue(m') && Waiting(m') == before + Queue(m');
      WithoutMiddle(before, [x], Queue(m'), |m.accepted|);
    }
  }

  lemma AcceptKeepsWaiting(m: Mac, m': Mac)
    requires WaitsInOrder(m) && m.front <= |m.accepted| && Next(m, Accept, m')
    ensures WaitsInOrder(m')
  {
    var p := m'.accepted[|m.accepted|];
    assert Queue(m') == Queue(m) + [p];
    assert Waiting(m') == Waiting(m) + [p];
  }

  lemma SwapKeepsWaiting(m: Mac, m': Mac)
    requires WaitsInOrder(m) && Next(m, Swap, m')
    ensures WaitsInOrder(m')
  {
    var tail := Held(m.granted.held) + Queue(m);
    assert Waiting(m) == [] + m.pending + tail && Waiting(m') == [] + tail;
    WithoutMiddle([], m.pending, tail, |m.accepted|);
  }

  lemma OthersKeepWaiting(m: Mac, e: Step, m': Mac)
    requires Next(m, e, m') && !e.Accept? && !e.Store? && !e.Collect? && !e.Swap?
    requires HandsOk(m)
    ensures Waiting(m') == Waiting(m) && m'.accepted == m.accepted
  {
    if e.Append? {
      assert Held(m.granted.held) == [m.granted.held.value];
    } else if e.Load? {
      assert m'.granted.held == m.granted.held;
    }
  }

  lemma WaitingStep(m: Mac, e: Step, m': Mac)
    requires WaitsInOrder(m) && HandsOk(m) && m.front <= |m.accepted| && Next(m, e, m')
    requires e.Store? ==> HandOf(m, e.who).loaded.value == m.front
    ensures WaitsInOrder(m')
  {
    if e.Accept? {
      AcceptKeepsWaiting(m, m');
    } else if e.Store? {
      TakeKeepsWaiting(m, e, m');
    } else if e.Collect? {
      CollectKeepsWaiting(m, m');
    } else if e.Swap? {
      SwapKeepsWaiting(m, m');
    } else {
      OthersKeepWaiting(m, e, m');
    }
  }

  lemma {:induction false} RunWaits(ms: seq<Mac>, es: seq<Step>, delay: nat, i: nat)
    requires IsRun(ms, es, delay) && i <= |es| && Apart(es, i)
    ensures WaitsInOrder(ms[i])
  {
    if i > 0 {
      var k := i - 1;
      RunWaits(ms, es, delay, k);
      RunHands(ms, es, delay, k);
      RunPartition(ms, es, delay, k);
      if es[k].Store? {
        StoreIsFresh(ms, es, delay, es[k].who, k);
      }
      assert Next(ms[k], es[k], ms[k + 1]);
      WaitingStep(ms[k], es[k], ms[i]);
    }
  }

  lemma SwappedAscends(pending: seq<Pdu>, held: seq<Pdu>, queue: seq<Pdu>)
    requires Ascending(pending + held + queue)
    ensures Ascending(queue + pending) <==> queue == [] || pending == []
  {
    var s, t := pending + held + queue, queue + pending;
    assert forall i :: 0 <= i < |pending| ==> pending[i] == s[i];
    assert forall i :: 0 <= i < |queue| ==> queue[i] == s[|pending + held| + i];
    if queue != [] && pending != [] {
      assert t[0] == queue[0] && t[|queue|] == pending[0];
    }
  }

  /**
   An immediate uplink finishes the queue and then the pending list. In every run whose takes are apart that is the
   order in which they were accepted if and only if the queue or the pending list is empty; and if it is the first one
   and nothing is on its way, all that was accepted then goes out in order exactly under that condition.
  */
  lemma ImmediateKeepsOrderIff(ms: seq<Mac>, es: seq<Step>, delay: nat, i: nat)
    requires IsRun(ms, es, delay) && i <= |es| && Apart(es, i)
    ensures var m := ms[i]; Ascending(Queue(m) + m.pending) <==> Queue(m) == [] || m.pending == []
    ensures var m := ms[i];
            (forall k :: 0 <= k < i ==> !Immediate(es[k])) && m.batch == [] && m.granted == EMPTY_HAND ==>
              (Finished(m.log) + Queue(m) + m.pending == m.accepted <==> Queue(m) == [] || m.pending == [])
  {
    var m := ms[i];
    RunWaits(ms, es, delay, i);
    SwappedAscends(m.pending, Held(m.granted.held), Queue(m));
    if (forall k :: 0 <= k < i ==> !Immediate(es[k])) && m.batch == [] && m.granted == EMPTY_HAND {
      RunOrdered(ms, es, delay, i);
      SentInOrderIff(m);
    }
  }

  lemma SentInOrderIff(m: Mac)
    requires Ordered(m) && m.batch == [] && m.granted == EMPTY_HAND && Ascending(Waiting(m))
    ensures Finished(m.log) + Queue(m) + m.pending == m.accepted <==> Queue(m) == [] || m.pending == []
  {
    assert m.accepted == Finished(m.log) + m.pending + Queue(m);
    assert Waiting(m) == m.pending + [] + Queue(m);
    SwappedIsSame(Finished(m.log), m.pending, Queue(m));
  }

  lemma SwappedIsSame(done: seq<Pdu>, pending: seq<Pdu>, queue: seq<Pdu>)
    requires Ascending(pending + [] + queue)
    ensures done + queue + pending == done + pending + queue <==> queue == [] || pending == []
  {
    SwappedAscends(pending, [], queue);
    assert pending + [] + queue == pending + queue;
    if done + queue + pending == done + pending + queue {
      assert queue + pending == (done + queue + pending)[|done|..];
      assert pending + queue == (done + pending + queue)[|done|..];
    }
    if queue == [] {
      assert done + queue == done;
    }
    if pending == [] {
      assert done + pending == done;
    }
  }

  /** Of two accepted PDUs the first is granted and pending, the second still in the queue. */
  lemma OneIsPending(delay: nat, now: int, a: Pdu, b: Pdu)
    requires a == Pdu(0, now + delay) && b == Pdu(1, now + delay)
    ensures Reachable(Mac(now, delay, [a, b], 1, EMPTY_HAND, [a], [], EMPTY_HAND, [], []), delay)
  {
    var m0 := Mac(now, delay, [], 0, EMPTY_HAND, [], [], EMPTY_HAND, [], []);
    var m1 := m0.(accepted := [a]);
    var m2 := m1.(granted := Hand(Some(0), None));
    var m3 := m2.(front := 1, granted := Hand(None, Some(a)));
    var m4 := m3.(granted := EMPTY_HAND, pending := [a]);
    ReachableStart(delay, now);
    ReachableStep(delay, m0, Accept, m1);
    ReachableStep(delay, m1, Load(Opportunity), m2);
    ReachableStep(delay, m2, Store(Opportunity), m3);
    ReachableStep(delay, m3, Append, m4);
    ReachableStep(delay, m4, Accept, m4.(accepted := [a, b]));
  }

  /** An immediate uplink then sends the second. */
  lemma SecondIsSent(delay: nat, now: int, a: Pdu, b: Pdu)
    requires a == Pdu(0, now + delay) && b == Pdu(1, now + delay)
    ensures Reachable(Mac(now, delay, [a, b], 2, EMPTY_HAND, [a], [], EMPTY_HAND, [], [(b, now)]), delay)
  {
    var m5 := Mac(now, delay, [a, b], 1, EMPTY_HAND, [a], [], EMPTY_HAND, [], []);
    var m6 := m5.(direct := Hand(Some(1), None));
    var m7 := m6.(front := 2, direct := Hand(None, Some(b)));
    OneIsPending(delay, now, a, b);
    ReachableStep(delay, m5, Load(Uplink), m6);
    ReachableStep(delay, m6, Store(Uplink), m7);
    ReachableStep(delay, m7, FinishDirect, m7.(direct := EMPTY_HAND, log := [(b, now)]));
  }

  /** And then the first; both go out at once, whatever the delay. */
  lemma ImmediateBreaksOrder(delay: nat, now: int) returns (m: Mac)
    ensures Reachable(m, delay) && |m.accepted| == 2 && Finished(m.log) == [m.accepted[1], m.accepted[0]]
    ensures forall k :: 0 <= k < 2 ==> m.log[k].1 == m.log[k].0.deadline - delay
  {
    var a, b := Pdu(0, now + delay), Pdu(1, now + delay);
    var m8 := Mac(now, delay, [a, b], 2, EMPTY_HAND, [a], [], EMPTY_HAND, [], [(b, now)]);
    var m9 := m8.(swapped := [a], pending := []);
    m := m9.(swapped := [], log := [(b, now), (a, now)]);
    SecondIsSent(delay, now, a, b);
    ReachableStep(delay, m8, Swap, m9);
    ReachableStep(delay, m9, FinishSwapped, m);
    FinishedTwo(b, a, now);
  }

  lemma FinishedTwo(p: Pdu, q: Pdu, t: int)
    ensures Finished([(p, t), (q, t)]) == [p, q]
  {
    FinishedOne([], p, t);
    FinishedOne([(p, t)], q, t);
    assert [] + [(p, t)] == [(p, t)] && [(p, t)] + [(q, t)] == [(p, t), (q, t)];
  }
}
