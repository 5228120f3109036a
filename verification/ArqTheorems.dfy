/** When a repeated acknowledgment is ignored and when a packet is returned for retransmission, over every run. */
module ArqTheorems {
  import opened Arq
  import opened ArqRuns

  // ---------------------------------------------------------------------------------------------
  // What is pending
  // ---------------------------------------------------------------------------------------------

  predicate Adds(e: Event, id: nat) {
    e.AddE? && e.id == id
  }

  predicate Acks(e: Event, id: nat) {
    e.StatusE? && e.pdu.ack && e.pdu.ackSn == id
  }

  /** The entry is pending, and due for a check at `now`. */
  predicate Due(c: Config, s: Arq, id: nat, now: int) {
    id in s.buffer && Overdue(c, s.buffer[id], now)
  }

  /** A check finds the entry overdue and its attempts used up. */
  predicate Drops(c: Config, s: Arq, e: Event, id: nat) {
    e.CheckE? && Due(c, s, id, e.now) && s.buffer[id].count >= c.maxAttempts
  }

  predicate Removes(c: Config, s: Arq, e: Event, id: nat) {
    Acks(e, id) || Drops(c, s, e, id)
  }

  lemma {:induction false} NacksKeepKeys(s: Arq, ids: seq<nat>)
    ensures Nacks(s, ids).buffer.Keys == s.buffer.Keys
  {
    if ids != [] {
      NacksKeepKeys(s, ids[..|ids| - 1]);
    }
  }

  lemma PendingAfterCheck(c: Config, w: World, e: Event, w': World, id: nat)
    requires Inv(c, w) && Step(c, w, e, w') && e.CheckE?
    ensures id in w'.s.buffer <==> id in w.s.buffer && !Drops(c, w.s, e, id)
  {
    CheckKeeps(c, w, e.ids, e.now);
    CheckReturns(c, w.s, e.ids, e.now, id);
    CheckedNotOverdue(c, w.s, e.ids, e.now, id);
  }

  lemma PendingAfterStep(c: Config, w: World, e: Event, w': World, id: nat)
    requires Inv(c, w) && Step(c, w, e, w')
    ensures id in w'.s.buffer <==> Adds(e, id) || (id in w.s.buffer && !Removes(c, w.s, e, id))
  {
    StepIsTheClass(c, w, e, w');
    if e.CheckE? {
      PendingAfterCheck(c, w, e, w', id);
    } else if e.StatusE? {
      NacksKeepKeys(w.s, e.pdu.nacks);
    }
  }

  /** Added at `k`, and not removed from then up to `j`. */
  ghost predicate Survives(c: Config, ws: seq<World>, es: seq<Event>, id: nat, k: nat, j: nat)
    requires k < j <= |es| < |ws|
  {
    Adds(es[k], id) && forall l :: k < l < j ==> !Removes(c, ws[l].s, es[l], id)
  }

  ghost predicate AddedAndKept(c: Config, ws: seq<World>, es: seq<Event>, id: nat, i: nat, j: nat)
    requires i <= j <= |es| < |ws|
  {
    exists k :: i <= k < j && Survives(c, ws, es, id, k, j)
  }

  /** A packet that is not pending at `i` is pending at `j` exactly if it was added and not removed since then. */
  lemma {:induction false} PendingIff(c: Config, ws: seq<World>, es: seq<Event>, id: nat, i: nat, j: nat)
    requires IsRun(c, ws, es) && i <= j < |ws| && id !in ws[i].s.buffer
    ensures id in ws[j].s.buffer <==> AddedAndKept(c, ws, es, id, i, j)
  {
    if i < j {
      PendingIff(c, ws, es, id, i, j - 1);
      RunKeeps(c, ws, es, j - 1);
      PendingAfterStep(c, ws[j - 1], es[j - 1], ws[j], id);
      if Adds(es[j - 1], id) {
        assert Survives(c, ws, es, id, j - 1, j);
      } else if AddedAndKept(c, ws, es, id, i, j) {
        var k :| i <= k < j && Survives(c, ws, es, id, k, j);
        assert k < j - 1 && Survives(c, ws, es, id, k, j - 1);
      } else if id in ws[j].s.buffer {
        var k :| i <= k < j - 1 && Survives(c, ws, es, id, k, j - 1);
        assert Survives(c, ws, es, id, k, j);
      }
    }
  }

  // ---------------------------------------------------------------------------------------------
  // Repeated acknowledgments
  // ---------------------------------------------------------------------------------------------

  /** Every addition of `id` between `i` and `j` was followed by a removal before `j`. */
  ghost predicate Settled(c: Config, ws: seq<World>, es: seq<Event>, id: nat, i: nat, j: nat)
    requires i <= j <= |es| < |ws|
  {
    forall k :: i < k < j && Adds(es[k], id) ==> exists l :: k < l < j && Removes(c, ws[l].s, es[l], id)
  }

  /**
   An acknowledgment that repeats an earlier one is refused and changes nothing exactly if the id was not added again in
   between, or was removed again since its last addition; otherwise it counts as one more packet and removes that one.
  */
  lemma RepeatedAckIgnoredIff(c: Config, ws: seq<World>, es: seq<Event>, id: nat, i: nat, j: nat)
    requires IsRun(c, ws, es) && i < j < |es| && Acks(es[i], id) && Acks(es[j], id)
    ensures Settled(c, ws, es, id, i, j) <==> !ProcessStatus(ws[j].s, es[j].pdu).1
    ensures Settled(c, ws, es, id, i, j) <==> ws[j + 1].s == ws[j].s
    ensures Settled(c, ws, es, id, i, j) <==> ws[j + 1].s.packetsAcked == ws[j].s.packetsAcked
    ensures !Settled(c, ws, es, id, i, j) ==>
              && id in ws[j].s.buffer && ws[j + 1].s.buffer == ws[j].s.buffer - {id}
              && ws[j + 1].s.packetsAcked == (ws[j].s.packetsAcked + 1) % U32
              && ws[j + 1].s.bytesAcked == (ws[j].s.bytesAcked + ws[j].s.buffer[id].size) % U32
  {
    RunKeeps(c, ws, es, i);
    PendingAfterStep(c, ws[i], es[i], ws[i + 1], id);
    PendingIff(c, ws, es, id, i + 1, j);
    RunKeeps(c, ws, es, j);
    StepIsTheClass(c, ws[j], es[j], ws[j + 1]);
    SettledIff(c, ws, es, id, i, j);
    NextDiffers(ws[j].s.packetsAcked);
  }

  lemma NextDiffers(n: nat)
    ensures (n + 1) % U32 != n
  {
  }

  lemma SettledIff(c: Config, ws: seq<World>, es: seq<Event>, id: nat, i: nat, j: nat)
    requires i < j <= |es| < |ws|
    ensures Settled(c, ws, es, id, i, j) <==> !AddedAndKept(c, ws, es, id, i + 1, j)
  {
    if AddedAndKept(c, ws, es, id, i + 1, j) {
      var k :| i + 1 <= k < j && Survives(c, ws, es, id, k, j);
      assert i < k < j && Adds(es[k], id);
    } else {
      forall k | i < k < j && Adds(es[k], id) ensures exists l :: k < l < j && Removes(c, ws[l].s, es[l], id) {
        assert !Survives(c, ws, es, id, k, j);
      }
    }
  }

  /** For instance an acknowledgment that is repeated after its id was used again counts the bytes of the new packet. */
  lemma LateAckHitsReusedId(c: Config, id: nat, a: nat, b: nat, now: int)
    requires a + b < U32
    ensures var ack := StatusE(Status(true, false, id, []));
            exists ws: seq<World> :: IsRun(c, ws, [AddE(id, a, now), ack, AddE(id, b, now), ack])
                         && ws[3].s.bytesAcked == a && ws[4].s.bytesAcked == a + b && id !in ws[4].s.buffer
  {
    var ack := StatusE(Status(true, false, id, []));
    var w0 := World(Initial(), History(0, 0, [], 0, 0, map[]));
    var w1 := Add(w0, id, a, now);
    var w2 := Acked(w1, id);
    var w3 := Add(w2, id, b, now);
    var w4 := Acked(w3, id);
    assert w1.s.buffer[id].size == a && w3.s.buffer[id].size == b;
    assert IsRun(c, [w0, w1, w2, w3, w4], [AddE(id, a, now), ack, AddE(id, b, now), ack]);
  }

  // ---------------------------------------------------------------------------------------------
  // Attempts
  // ---------------------------------------------------------------------------------------------

  lemma {:induction false} NackedTally(w: World, ids: seq<nat>, id: nat)
    ensures id in NackedAll(w, ids).h.tallies <==> id in w.h.tallies
    ensures id in w.h.tallies ==> NackedAll(w, ids).h.tallies[id].returned == w.h.tallies[id].returned
  {
    if ids != [] {
      NackedTally(w, ids[..|ids| - 1], id);
    }
  }

  /** A check counts a return exactly for the entries it returns. */
  lemma {:induction false} CheckedTally(c: Config, w: World, ids: seq<nat>, now: int, id: nat)
    requires Inv(c, w) && forall i, j :: 0 <= i < j < |ids| ==> ids[i] < ids[j]
    ensures var w' := Checked(c, w, ids, now);
            id in w'.h.tallies ==>
              && id in w.h.tallies
              && w'.h.tallies[id].returned
                 == w.h.tallies[id].returned + if id in Check(c, w.s, ids, now).1 then 1 else 0
  {
    if ids != [] {
      var k := |ids| - 1;
      CheckedTally(c, w, ids[..k], now, id);
      CheckKeeps(c, w, ids[..k], now);
      CheckOneKeeps(c, Checked(c, w, ids[..k], now), ids[k], now);
      CheckReturns(c, w.s, ids[..k], now, id);
    }
  }

  /** The step is a check that returns the entry for retransmission. */
  predicate Returns(c: Config, s: Arq, e: Event, id: nat) {
    e.CheckE? && id in Check(c, s, e.ids, e.now).1
  }

  lemma TallyAfterStep(c: Config, w: World, e: Event, w': World, id: nat)
    requires Inv(c, w) && Step(c, w, e, w') && id in w'.h.tallies
    ensures Adds(e, id) ==> w'.h.tallies[id].returned == 0
    ensures !Adds(e, id) ==>
              && id in w.h.tallies
              && w'.h.tallies[id].returned
                 == w.h.tallies[id].returned + if Returns(c, w.s, e, id) then 1 else 0
  {
    match e
    case AddE(_, _, _) =>
    case StatusE(p) => NackedTally(w, p.nacks, id);
    case CheckE(ids, now) => CheckedTally(c, w, ids, now, id);
    case MarkE(_) =>
  }

  /**
   A pending packet that is overdue at a check is returned exactly if its returns and NACKs so far, as a 16-bit number,
   are below the maximum, and is dropped otherwise.
  */
  lemma ReturnedIff(c: Config, ws: seq<World>, es: seq<Event>, i: nat, id: nat)
    requires IsRun(c, ws, es) && i < |es| && es[i].CheckE? && Due(c, ws[i].s, id, es[i].now)
    ensures id in ws[i].h.tallies
    ensures var t := ws[i].h.tallies[id];
            && (Returns(c, ws[i].s, es[i], id) <==> (t.returned + t.nacked) % U16 < c.maxAttempts)
            && (id in ws[i + 1].s.buffer <==> (t.returned + t.nacked) % U16 < c.maxAttempts)
  {
    RunKeeps(c, ws, es, i);
    assert Step(c, ws[i], es[i], ws[i + 1]);
    CheckReturns(c, ws[i].s, es[i].ids, es[i].now, id);
    PendingAfterStep(c, ws[i], es[i], ws[i + 1], id);
  }

  /** The same packet is pending from `k` to `i`. */
  ghost predicate SameLife(ws: seq<World>, es: seq<Event>, id: nat, k: nat, i: nat)
    requires k <= i <= |es| < |ws|
  {
    && (forall l :: k <= l <= i ==> id in ws[l].s.buffer && id in ws[l].h.tallies)
    && (forall l :: k <= l < i ==> !Adds(es[l], id))
  }

  /** At `k` a check finds the packet overdue, returned as often as allowed, and its counter wrapped by NACKs. */
  ghost predicate Wrapped(c: Config, ws: seq<World>, es: seq<Event>, id: nat, k: nat)
    requires k < |es| < |ws|
  {
    && es[k].CheckE? && Due(c, ws[k].s, id, es[k].now)
    && id in ws[k].h.tallies && ws[k].h.tallies[id].returned == c.maxAttempts
    && (c.maxAttempts + ws[k].h.tallies[id].nacked) % U16 < c.maxAttempts
  }

  ghost predicate WrappedBefore(c: Config, ws: seq<World>, es: seq<Event>, id: nat, i: nat)
    requires i <= |es| < |ws|
  {
    exists k :: 0 <= k < i && SameLife(ws, es, id, k, i) && Wrapped(c, ws, es, id, k)
  }

  /** At the maximum, only such a check returns the packet. */
  lemma ReturnedAtMaxIff(c: Config, ws: seq<World>, es: seq<Event>, k: nat, id: nat)
    requires IsRun(c, ws, es) && k < |es| && id in ws[k].h.tallies
    requires ws[k].h.tallies[id].returned == c.maxAttempts
    ensures Returns(c, ws[k].s, es[k], id) <==> Wrapped(c, ws, es, id, k)
  {
    RunKeeps(c, ws, es, k);
    assert Step(c, ws[k], es[k], ws[k + 1]);
    if es[k].CheckE? {
      CheckReturns(c, ws[k].s, es[k].ids, es[k].now, id);
    }
  }

  lemma WrappedBeforeAdd(c: Config, ws: seq<World>, es: seq<Event>, i: nat, id: nat)
    requires i < |es| < |ws| && Adds(es[i], id)
    ensures !WrappedBefore(c, ws, es, id, i + 1)
  {
    var j := i + 1;
    forall k | 0 <= k < j ensures !SameLife(ws, es, id, k, j) {
      assert k <= i < j && Adds(es[i], id);
    }
  }

  lemma WrappedBeforeNext(c: Config, ws: seq<World>, es: seq<Event>, i: nat, id: nat)
    requires i < |es| < |ws| && !Adds(es[i], id)
    requires id in ws[i].s.buffer && id in ws[i].h.tallies && id in ws[i + 1].s.buffer && id in ws[i + 1].h.tallies
    ensures WrappedBefore(c, ws, es, id, i + 1) <==> WrappedBefore(c, ws, es, id, i) || Wrapped(c, ws, es, id, i)
  {
    if WrappedBefore(c, ws, es, id, i + 1) {
      var k :| 0 <= k < i + 1 && SameLife(ws, es, id, k, i + 1) && Wrapped(c, ws, es, id, k);
      assert SameLife(ws, es, id, k, i);
    }
    if WrappedBefore(c, ws, es, id, i) {
      var k :| 0 <= k < i && SameLife(ws, es, id, k, i) && Wrapped(c, ws, es, id, k);
      assert SameLife(ws, es, id, k, i + 1);
    }
    assert SameLife(ws, es, id, i, i + 1);
  }

  /**
   A packet has been returned more than `maxAttempts` times exactly if, since it was added, some check found it overdue
   with `maxAttempts` returns and so many NACKs that both together, modulo 2^16, were below `maxAttempts`.
  */
  lemma {:induction false} ExceedsMaxIff(c: Config, ws: seq<World>, es: seq<Event>, i: nat, id: nat)
    requires IsRun(c, ws, es) && i < |ws| && id in ws[i].s.buffer
    ensures id in ws[i].h.tallies
    ensures ws[i].h.tallies[id].returned > c.maxAttempts <==> WrappedBefore(c, ws, es, id, i)
  {
    RunKeeps(c, ws, es, i);
    if i > 0 {
      var j := i - 1;
      RunKeeps(c, ws, es, j);
      TallyAfterStep(c, ws[j], es[j], ws[i], id);
      if Adds(es[j], id) {
        WrappedBeforeAdd(c, ws, es, j, id);
      } else {
        ExceedsMaxIff(c, ws, es, j, id);
        WrappedBeforeNext(c, ws, es, j, id);
        if ws[j].h.tallies[id].returned == c.maxAttempts {
          ReturnedAtMaxIff(c, ws, es, j, id);
        }
      }
    }
  }

  // ---------------------------------------------------------------------------------------------
  // Time and mark of an entry
  // ---------------------------------------------------------------------------------------------

  /** The step names the entry in a negative acknowledgment. */
  predicate Denies(e: Event, id: nat) {
    e.StatusE? && !e.pdu.ack && e.pdu.nack && id in e.pdu.nacks
  }

  /** The step asks for the packet again. */
  predicate Asks(c: Config, s: Arq, e: Event, id: nat) {
    Denies(e, id) || Returns(c, s, e, id)
  }

  /** The step starts the entry's timer. */
  predicate Stamps(c: Config, s: Arq, e: Event, id: nat) {
    Adds(e, id) || Returns(c, s, e, id)
  }

  predicate Settles(e: Event, id: nat) {
    Adds(e, id) || (e.MarkE? && e.id == id)
  }

  lemma {:induction false} NacksMark(s: Arq, ids: seq<nat>, id: nat)
    requires id in s.buffer
    ensures var s' := Nacks(s, ids);
            && id in s'.buffer && s'.buffer[id].enqueued == s.buffer[id].enqueued
            && s'.buffer[id].size == s.buffer[id].size
            && (s'.buffer[id].needs <==> s.buffer[id].needs || id in ids)
  {
    if ids != [] {
      var k := |ids| - 1;
      NacksMark(s, ids[..k], id);
      assert ids == ids[..k] + [ids[k]];
    }
  }

  lemma EntryAfterStep(c: Config, w: World, e: Event, w': World, id: nat)
    requires Inv(c, w) && Step(c, w, e, w') && id in w'.s.buffer
    ensures Adds(e, id) || id in w.s.buffer
    ensures Adds(e, id) ==> w'.s.buffer[id].size == e.size
    ensures !Adds(e, id) ==> w'.s.buffer[id].size == w.s.buffer[id].size
    ensures Stamps(c, w.s, e, id) ==> w'.s.buffer[id].enqueued == e.now
    ensures !Stamps(c, w.s, e, id) ==> w'.s.buffer[id].enqueued == w.s.buffer[id].enqueued
    ensures w'.s.buffer[id].needs <==> Asks(c, w.s, e, id) || (!Settles(e, id) && w.s.buffer[id].needs)
  {
    StepIsTheClass(c, w, e, w');
    PendingAfterStep(c, w, e, w', id);
    match e
    case AddE(_, _, _) =>
    case StatusE(p) => if !p.ack && p.nack { NacksMark(w.s, p.nacks, id); }
    case CheckE(ids, now) =>
      CheckReturns(c, w.s, ids, now, id);
      if id !in Check(c, w.s, ids, now).1 {
        NotReturnedIsSame(c, w.s, ids, now, id);
      }
    case MarkE(_) =>
  }

  /** A pending entry that the check does not return is as before. */
  lemma {:induction false} NotReturnedIsSame(c: Config, s: Arq, ids: seq<nat>, now: int, id: nat)
    requires id in Check(c, s, ids, now).0.buffer && id !in Check(c, s, ids, now).1
    ensures id in s.buffer && Check(c, s, ids, now).0.buffer[id] == s.buffer[id]
  {
    if ids != [] {
      NotReturnedIsSame(c, s, ids[..|ids| - 1], now, id);
    }
  }

  /** At `k` the timer was started, and not again up to `j`. */
  ghost predicate LastStamp(c: Config, ws: seq<World>, es: seq<Event>, id: nat, k: nat, j: nat)
    requires j <= |es| < |ws|
  {
    && k < j && Stamps(c, ws[k].s, es[k], id)
    && forall l :: k < l < j ==> !Stamps(c, ws[l].s, es[l], id)
  }

  /** A pending packet's time is that of the last step that added or returned it. */
  lemma {:induction false} TimeIsLastStamp(c: Config, ws: seq<World>, es: seq<Event>, id: nat, j: nat) returns (k: nat)
    requires IsRun(c, ws, es) && j < |ws| && id in ws[j].s.buffer
    ensures LastStamp(c, ws, es, id, k, j) && ws[j].s.buffer[id].enqueued == es[k].now
  {
    var i := j - 1;
    RunKeeps(c, ws, es, i);
    EntryAfterStep(c, ws[i], es[i], ws[j], id);
    if Stamps(c, ws[i].s, es[i], id) {
      k := i;
    } else {
      k := TimeIsLastStamp(c, ws, es, id, i);
    }
  }

  /** Asked for at `k`, and neither added nor sent again from then up to `j`. */
  ghost predicate OpenRequest(c: Config, ws: seq<World>, es: seq<Event>, id: nat, k: nat, j: nat)
    requires j <= |es| < |ws|
  {
    && k < j && Asks(c, ws[k].s, es[k], id)
    && forall l :: k < l < j ==> !Settles(es[l], id)
  }

  /** A pending packet is marked exactly if a NACK or a check asked for it since it was last added or sent again. */
  lemma {:induction false} MarkedIff(c: Config, ws: seq<World>, es: seq<Event>, id: nat, j: nat)
    requires IsRun(c, ws, es) && j < |ws| && id in ws[j].s.buffer
    ensures ws[j].s.buffer[id].needs <==> exists k: nat :: OpenRequest(c, ws, es, id, k, j)
  {
    var i := j - 1;
    RunKeeps(c, ws, es, i);
    EntryAfterStep(c, ws[i], es[i], ws[j], id);
    if Asks(c, ws[i].s, es[i], id) {
      assert OpenRequest(c, ws, es, id, i, j);
    } else if Settles(es[i], id) {
      assert forall k: nat :: k < j && Asks(c, ws[k].s, es[k], id) ==> k < i < j;
    } else {
      MarkedIff(c, ws, es, id, i);
      if k: nat :| OpenRequest(c, ws, es, id, k, i) {
        assert OpenRequest(c, ws, es, id, k, j);
      }
      if k: nat :| OpenRequest(c, ws, es, id, k, j) {
        assert OpenRequest(c, ws, es, id, k, i);
      }
    }
  }
}
