/** What the retransmission manager keeps over every run. */
module ArqRuns {
  import opened Options
  import opened Arq

  /** How often an entry was returned for retransmission and how often it was named by a NACK. */
  datatype Tally = Tally(returned: nat, nacked: nat)

  /** What happened so far, in true counts: packets added, entries overwritten, sizes acknowledged, entries dropped. */
  datatype History = History(added: nat, overwritten: nat, acked: seq<nat>, dropped: nat, returned: nat,
                             tallies: map<nat, Tally>)

  datatype World = World(s: Arq, h: History)

  function Total(sizes: seq<nat>): nat {
    if sizes == [] then 0 else Total(sizes[..|sizes| - 1]) + sizes[|sizes| - 1]
  }

  function Add(w: World, id: nat, size: nat, now: int): World {
    World(AddPacket(w.s, id, size, now),
          w.h.(added := w.h.added + 1,
               overwritten := w.h.overwritten + if id in w.s.buffer then 1 else 0,
               tallies := w.h.tallies[id := Tally(0, 0)]))
  }

  function Acked(w: World, id: nat): World {
    if id !in w.s.buffer then w
    else World(Ack(w.s, id).0,
               w.h.(acked := w.h.acked + [w.s.buffer[id].size], tallies := w.h.tallies - {id}))
  }

  function Nacked(w: World, id: nat): World {
    if id !in w.s.buffer || id !in w.h.tallies then w
    else
      var t := w.h.tallies[id];
      World(Nack(w.s, id), w.h.(tallies := w.h.tallies[id := t.(nacked := t.nacked + 1)]))
  }

  function NackedAll(w: World, ids: seq<nat>): World {
    if ids == [] then w else Nacked(NackedAll(w, ids[..|ids| - 1]), ids[|ids| - 1])
  }

  function CheckedOne(c: Config, w: World, id: nat, now: int): World {
    var (s', returned) := CheckOne(c, w.s, id, now);
    if id !in w.s.buffer || !Overdue(c, w.s.buffer[id], now) || id !in w.h.tallies then w
    else if returned then
      var t := w.h.tallies[id];
      World(s', w.h.(returned := w.h.returned + 1, tallies := w.h.tallies[id := t.(returned := t.returned + 1)]))
    else World(s', w.h.(dropped := w.h.dropped + 1, tallies := w.h.tallies - {id}))
  }

  function Checked(c: Config, w: World, ids: seq<nat>, now: int): World {
    if ids == [] then w else CheckedOne(c, Checked(c, w, ids[..|ids| - 1], now), ids[|ids| - 1], now)
  }

  function Marked(w: World, id: nat): World {
    World(MarkRetransmitted(w.s, id), w.h)
  }

  // ---------------------------------------------------------------------------------------------
  // The invariant
  // ---------------------------------------------------------------------------------------------

  /** The counters are the true counts, in 32 bits. */
  predicate CountersExact(w: World) {
    && w.s.packetsAcked == |w.h.acked| % U32
    && w.s.bytesAcked == Total(w.h.acked) % U32
    && w.s.dropped == w.h.dropped % U32
    && w.s.retransmitted == w.h.returned % U32
  }

  /** Every packet added was acknowledged, dropped, overwritten, or is still pending. */
  predicate Conserved(w: World) {
    w.h.added == |w.h.acked| + w.h.dropped + |w.s.buffer| + w.h.overwritten
  }

  /** The attempt counter of an entry, a 16-bit number, counts returns and NACKs. */
  predicate TallyOk(c: Config, e: Entry, t: Tally) {
    && e.count == (t.returned + t.nacked) % U16
    && (t.returned <= c.maxAttempts || t.returned + t.nacked >= U16)
  }

  ghost predicate Tallied(c: Config, w: World) {
    && w.h.tallies.Keys == w.s.buffer.Keys
    && forall id :: id in w.s.buffer ==> TallyOk(c, w.s.buffer[id], w.h.tallies[id])
  }

  ghost predicate Inv(c: Config, w: World) {
    CountersExact(w) && Conserved(w) && Tallied(c, w)
  }

  lemma Next16(n: nat)
    ensures (n % U16 + 1) % U16 == (n + 1) % U16
  {
  }

  lemma Add32(n: nat, k: nat)
    ensures (n % U32 + k) % U32 == (n + k) % U32
  {
    assert n == n / U32 * U32 + n % U32;
  }

  lemma RemoveKey<V>(m: map<nat, V>, id: nat)
    requires id in m
    ensures |m - {id}| == |m| - 1 && (m - {id}).Keys == m.Keys - {id}
  {
    assert (m - {id}).Keys == m.Keys - {id};
  }

  lemma SetKey<V>(m: map<nat, V>, id: nat, v: V)
    ensures |m[id := v]| == |m| + (if id in m then 0 else 1)
    ensures m[id := v].Keys == m.Keys + {id}
  {
    assert m[id := v].Keys == m.Keys + {id};
  }

  lemma AddKeeps(c: Config, w: World, id: nat, size: nat, now: int)
    requires Inv(c, w)
    ensures Inv(c, Add(w, id, size, now))
  {
    SetKey(w.s.buffer, id, Entry(size, now, 0, false));
    SetKey(w.h.tallies, id, Tally(0, 0));
  }

  lemma AckKeeps(c: Config, w: World, id: nat)
    requires Inv(c, w)
    ensures Inv(c, Acked(w, id))
  {
    if id in w.s.buffer {
      var size := w.s.buffer[id].size;
      RemoveKey(w.s.buffer, id);
      RemoveKey(w.h.tallies, id);
      Add32(|w.h.acked|, 1);
      Add32(Total(w.h.acked), size);
      assert (w.h.acked + [size])[..|w.h.acked|] == w.h.acked;
    }
  }

  lemma NackKeeps(c: Config, w: World, id: nat)
    requires Inv(c, w)
    ensures Inv(c, Nacked(w, id))
  {
    if id in w.s.buffer {
      var e, t := w.s.buffer[id], w.h.tallies[id];
      SetKey(w.s.buffer, id, e.(needs := true, count := (e.count + 1) % U16));
      SetKey(w.h.tallies, id, t.(nacked := t.nacked + 1));
      Next16(t.returned + t.nacked);
    }
  }

  lemma {:induction false} NacksKeep(c: Config, w: World, ids: seq<nat>)
    requires Inv(c, w)
    ensures Inv(c, NackedAll(w, ids)) && NackedAll(w, ids).s == Nacks(w.s, ids)
  {
    if ids != [] {
      NacksKeep(c, w, ids[..|ids| - 1]);
      NackKeeps(c, NackedAll(w, ids[..|ids| - 1]), ids[|ids| - 1]);
    }
  }

  lemma DropKeeps(c: Config, w: World, id: nat, now: int)
    requires Inv(c, w) && id in w.s.buffer && Overdue(c, w.s.buffer[id], now)
    requires w.s.buffer[id].count >= c.maxAttempts
    ensures Inv(c, CheckedOne(c, w, id, now)) && CheckedOne(c, w, id, now).s == CheckOne(c, w.s, id, now).0
  {
    RemoveKey(w.s.buffer, id);
    RemoveKey(w.h.tallies, id);
    Add32(w.h.dropped, 1);
  }

  lemma TallyReturned(c: Config, e: Entry, t: Tally, now: int)
    requires TallyOk(c, e, t) && e.count < c.maxAttempts
    ensures TallyOk(c, e.(needs := true, count := (e.count + 1) % U16, enqueued := now),
                    t.(returned := t.returned + 1))
  {
    Next16(t.returned + t.nacked);
    if t.returned + t.nacked < U16 {
      assert e.count == t.returned + t.nacked;
    }
  }

  lemma ReturnKeeps(c: Config, w: World, id: nat, now: int)
    requires Inv(c, w) && id in w.s.buffer && Overdue(c, w.s.buffer[id], now)
    requires w.s.buffer[id].count < c.maxAttempts
    ensures Inv(c, CheckedOne(c, w, id, now)) && CheckedOne(c, w, id, now).s == CheckOne(c, w.s, id, now).0
  {
    var e, t := w.s.buffer[id], w.h.tallies[id];
    SetKey(w.s.buffer, id, e.(needs := true, count := (e.count + 1) % U16, enqueued := now));
    SetKey(w.h.tallies, id, t.(returned := t.returned + 1));
    Add32(w.h.returned, 1);
    TallyReturned(c, e, t, now);
  }

  lemma CheckOneKeeps(c: Config, w: World, id: nat, now: int)
    requires Inv(c, w)
    ensures Inv(c, CheckedOne(c, w, id, now)) && CheckedOne(c, w, id, now).s == CheckOne(c, w.s, id, now).0
  {
    if id in w.s.buffer && Overdue(c, w.s.buffer[id], now) {
      if w.s.buffer[id].count >= c.maxAttempts {
        DropKeeps(c, w, id, now);
      } else {
        ReturnKeeps(c, w, id, now);
      }
    }
  }

  lemma {:induction false} CheckKeeps(c: Config, w: World, ids: seq<nat>, now: int)
    requires Inv(c, w)
    ensures Inv(c, Checked(c, w, ids, now)) && Checked(c, w, ids, now).s == Check(c, w.s, ids, now).0
  {
    if ids != [] {
      CheckKeeps(c, w, ids[..|ids| - 1], now);
      CheckOneKeeps(c, Checked(c, w, ids[..|ids| - 1], now), ids[|ids| - 1], now);
    }
  }

  // ---------------------------------------------------------------------------------------------
  // Runs
  // ---------------------------------------------------------------------------------------------

  datatype Event =
    | AddE(id: nat, size: nat, now: int)
    | StatusE(pdu: Status)
    | CheckE(ids: seq<nat>, now: int)
    | MarkE(id: nat)

  ghost predicate Step(c: Config, w: World, e: Event, w': World) {
    match e
    case AddE(id, size, now) => w' == Add(w, id, size, now)
    case StatusE(p) =>
      w' == if p.ack then Acked(w, p.ackSn) else if p.nack then NackedAll(w, p.nacks) else w
    case CheckE(ids, now) => Enumerates(ids, w.s.buffer) && w' == Checked(c, w, ids, now)
    case MarkE(id) => w' == Marked(w, id)
  }

  /** The class's operation for an event. */
  function Applied(c: Config, s: Arq, e: Event): Arq {
    match e
    case AddE(id, size, now) => AddPacket(s, id, size, now)
    case StatusE(p) => ProcessStatus(s, p).0
    case CheckE(ids, now) => Check(c, s, ids, now).0
    case MarkE(id) => MarkRetransmitted(s, id)
  }

  /** Apart from its history, a run goes through exactly the class's operations. */
  lemma StepIsTheClass(c: Config, w: World, e: Event, w': World)
    requires Inv(c, w) && Step(c, w, e, w')
    ensures w'.s == Applied(c, w.s, e)
  {
    if e.StatusE? {
      NacksKeep(c, w, e.pdu.nacks);
    } else if e.CheckE? {
      CheckKeeps(c, w, e.ids, e.now);
    }
  }

  lemma StepKeeps(c: Config, w: World, e: Event, w': World)
    requires Inv(c, w) && Step(c, w, e, w')
    ensures Inv(c, w')
  {
    match e
    case AddE(id, size, now) => AddKeeps(c, w, id, size, now);
    case StatusE(p) =>
      if p.ack {
        AckKeeps(c, w, p.ackSn);
      } else {
        NacksKeep(c, w, p.nacks);
      }
    case CheckE(ids, now) => CheckKeeps(c, w, ids, now);
    case MarkE(id) =>
      if id in w.s.buffer {
        SetKey(w.s.buffer, id, w.s.buffer[id].(needs := false));
      }
  }

  ghost predicate IsRun(c: Config, ws: seq<World>, es: seq<Event>) {
    && |ws| == |es| + 1
    && ws[0] == World(Initial(), History(0, 0, [], 0, 0, map[]))
    && forall i :: 0 <= i < |es| ==> Step(c, ws[i], es[i], ws[i + 1])
  }

  lemma {:induction false} RunKeeps(c: Config, ws: seq<World>, es: seq<Event>, i: nat)
    requires IsRun(c, ws, es) && i < |ws|
    ensures Inv(c, ws[i])
  {
    if i > 0 {
      RunKeeps(c, ws, es, i - 1);
      StepKeeps(c, ws[i - 1], es[i - 1], ws[i]);
    }
  }

  /** Added = acknowledged + dropped + pending + overwritten, and the byte counter is the sum of acknowledged sizes. */
  lemma EveryPacketIsAccountedFor(c: Config, ws: seq<World>, es: seq<Event>, i: nat)
    requires IsRun(c, ws, es) && i < |ws|
    ensures Conserved(ws[i]) && CountersExact(ws[i])
  {
    RunKeeps(c, ws, es, i);
  }

  /**
   An entry is returned for retransmission at most `maxAttempts` times, as long as its 16-bit attempt counter, which
   NACKs advance as well, has not wrapped.
  */
  lemma ReturnedAtMostMaxTimes(c: Config, ws: seq<World>, es: seq<Event>, i: nat, id: nat)
    requires IsRun(c, ws, es) && i < |ws| && id in ws[i].s.buffer
    ensures id in ws[i].h.tallies
    ensures var t := ws[i].h.tallies[id]; t.returned + t.nacked < U16 ==> t.returned <= c.maxAttempts
  {
    RunKeeps(c, ws, es, i);
  }

  function Repeat(id: nat, n: nat): (ids: seq<nat>)
    ensures |ids| == n
  {
    if n == 0 then [] else Repeat(id, n - 1) + [id]
  }

  lemma {:induction false} NacksAdvance(s: Arq, id: nat, n: nat)
    requires id in s.buffer && s.buffer[id].count < U16
    ensures var s' := Nacks(s, Repeat(id, n));
            id in s'.buffer && s'.buffer[id].count == (s.buffer[id].count + n) % U16
            && s'.buffer[id].enqueued == s.buffer[id].enqueued
  {
    var ids := Repeat(id, n);
    if n > 0 {
      assert ids[..n - 1] == Repeat(id, n - 1);
      NacksAdvance(s, id, n - 1);
      Next16(s.buffer[id].count + n - 1);
    }
  }

  /** Enough NACKs wrap the counter to 0: an entry that used up all its attempts is returned again. */
  lemma WrapForgetsAttempts(c: Config, s: Arq, id: nat, now: int)
    requires 0 < c.maxAttempts < U16 && id in s.buffer
    requires s.buffer[id].count == c.maxAttempts && Overdue(c, s.buffer[id], now)
    ensures !CheckOne(c, s, id, now).1
    ensures CheckOne(c, Nacks(s, Repeat(id, U16 - c.maxAttempts)), id, now).1
  {
    NacksAdvance(s, id, U16 - c.maxAttempts);
  }

  // ---------------------------------------------------------------------------------------------
  // Checks
  // ---------------------------------------------------------------------------------------------

  /** After the loop has passed `ids`, none of them is overdue, and other entries are as before. */
  lemma {:induction false} CheckedNotOverdue(c: Config, s: Arq, ids: seq<nat>, now: int, id: nat)
    ensures var s' := Check(c, s, ids, now).0;
            && (id in s'.buffer ==> id in s.buffer)
            && (id in ids && id in s'.buffer ==> !Overdue(c, s'.buffer[id], now))
            && (id !in ids && id in s.buffer ==> id in s'.buffer && s'.buffer[id] == s.buffer[id])
  {
    if ids != [] {
      CheckedNotOverdue(c, s, ids[..|ids| - 1], now, id);
      if id in ids {
        assert id == ids[|ids| - 1] || id in ids[..|ids| - 1];
      }
    }
  }

  /** After `checkForRetransmissions` no pending entry is overdue. */
  lemma NothingOverdueAfterCheck(c: Config, s: Arq, ids: seq<nat>, now: int)
    requires Enumerates(ids, s.buffer)
    ensures forall id :: id in Check(c, s, ids, now).0.buffer ==>
              !Overdue(c, Check(c, s, ids, now).0.buffer[id], now)
  {
    forall id | id in Check(c, s, ids, now).0.buffer
      ensures !Overdue(c, Check(c, s, ids, now).0.buffer[id], now)
    {
      CheckedNotOverdue(c, s, ids, now, id);
    }
  }

  /** The entry after it was returned: marked, one attempt more, timer reset. */
  predicate IsMarked(e: Entry, e': Entry, now: int) {
    e' == Entry(e.size, now, (e.count + 1) % U16, true)
  }

  /** It returns exactly the overdue entries with attempts left, each once, and exactly the exhausted ones are gone. */
  lemma {:induction false} CheckReturns(c: Config, s: Arq, ids: seq<nat>, now: int, id: nat)
    requires forall i, j :: 0 <= i < j < |ids| ==> ids[i] < ids[j]
    ensures var (s', out) := Check(c, s, ids, now);
            && (id in out <==> id in ids && id in s.buffer && Overdue(c, s.buffer[id], now)
                               && s.buffer[id].count < c.maxAttempts)
            && (id in out ==> id in s.buffer && id in s'.buffer && IsMarked(s.buffer[id], s'.buffer[id], now))
            && (id in s.buffer && id !in s'.buffer <==>
                  id in ids && id in s.buffer && Overdue(c, s.buffer[id], now)
                  && s.buffer[id].count >= c.maxAttempts)
  {
    if ids != [] {
      var k := |ids| - 1;
      CheckReturns(c, s, ids[..k], now, id);
      CheckedNotOverdue(c, s, ids[..k], now, id);
      if id in ids {
        assert id == ids[k] || id in ids[..k];
      }
      if id == ids[k] {
        assert id !in ids[..k];
      }
    }
  }
}
