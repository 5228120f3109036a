/**
 The MAC slot scheduler: it shares a byte budget among RLC queues, by strict priority, and by round robin among queues
 of one priority. Every try of a queue goes into a log, and the promises are stated about that log.
*/
module MacSender {
  import opened Options
  import opened Bytes
  import opened PowersOfTwo
  import opened RlcSender
  import opened RlcFlow

  // ---------------------------------------------------------------------------------------------
  // Priority groups
  // ---------------------------------------------------------------------------------------------

  datatype Group = Group(priority: nat, indices: seq<nat>)

  /** Each index is in the group of its priority. */
  ghost predicate Sound(groups: seq<Group>, priorities: seq<nat>) {
    forall g, k :: 0 <= g < |groups| && 0 <= k < |groups[g].indices| ==>
      groups[g].indices[k] < |priorities| && priorities[groups[g].indices[k]] == groups[g].priority
  }

  predicate Descending(groups: seq<Group>) {
    forall g, h :: 0 <= g < h < |groups| ==> groups[g].priority > groups[h].priority
  }

  ghost predicate Contains(groups: seq<Group>, i: nat) {
    exists g :: 0 <= g < |groups| && i in groups[g].indices
  }

  /** `std::map` by descending priority: add one index to the group of its priority. */
  method AddIndex(groups: seq<Group>, priorities: seq<nat>, i: nat) returns (res: seq<Group>)
    requires i < |priorities| && Sound(groups, priorities) && Descending(groups)
    ensures Sound(res, priorities) && Descending(res) && Contains(res, i)
    ensures forall j: nat :: Contains(groups, j) ==> Contains(res, j)
  {
    var p := priorities[i];
    var k := 0;
    while k < |groups| && groups[k].priority > p
      invariant 0 <= k <= |groups|
      invariant forall g :: 0 <= g < k ==> groups[g].priority > p
    {
      k := k + 1;
    }
    if k < |groups| && groups[k].priority == p {
      res := groups[k := Group(p, groups[k].indices + [i])];
      assert i in res[k].indices;
      forall j: nat | Contains(groups, j) ensures Contains(res, j) {
        var g :| 0 <= g < |groups| && j in groups[g].indices;
        assert j in res[g].indices;
      }
    } else {
      res := groups[..k] + [Group(p, [i])] + groups[k..];
      assert i in res[k].indices;
      forall j: nat | Contains(groups, j) ensures Contains(res, j) {
        var g :| 0 <= g < |groups| && j in groups[g].indices;
        assert res[if g < k then g else g + 1] == groups[g];
      }
    }
  }

  method BuildGroups(priorities: seq<nat>) returns (groups: seq<Group>)
    ensures Sound(groups, priorities) && Descending(groups)
    ensures forall i: nat :: i < |priorities| ==> Contains(groups, i)
  {
    groups := [];
    for i := 0 to |priorities|
      invariant Sound(groups, priorities) && Descending(groups)
      invariant forall j: nat :: j < i ==> Contains(groups, j)
    {
      groups := AddIndex(groups, priorities, i);
    }
  }

  // ---------------------------------------------------------------------------------------------
  // The log
  // ---------------------------------------------------------------------------------------------

  datatype Outcome = Empty | Oversized | Refused | Sent

  /** One call of `dequeuePacket` on a queue, with the states of all queues before it. */
  datatype Attempt = Attempt(
    pass: nat, queue: nat, budget: nat, before: seq<Rlc>, x: Input, out: Option<Pdu>, outcome: Outcome)

  /** The attempt is what `dequeuePacket` does, and `after` are the states of the queues then. */
  ghost predicate Genuine(a: Attempt, after: seq<Rlc>) {
    && a.queue < |a.before| && Counted(a.before[a.queue])
    && var (r', out) := Dequeue(a.before[a.queue], a.budget, a.x, 0);
    && a.out == out && after == a.before[a.queue := r']
    && (a.outcome.Empty? <==> out.None?)
    && (a.outcome.Oversized? <==> out.Some? && |out.value.bytes| > a.budget)
  }

  /** The log leads from the states `start` to the states `final`. */
  ghost predicate Chain(start: seq<Rlc>, log: seq<Attempt>, final: seq<Rlc>) {
    if log == [] then final == start
    else
      var k := |log| - 1;
      Genuine(log[k], final) && Chain(start, log[..k], log[k].before)
  }

  predicate Idle(r: Rlc) {
    r.packets == [] && r.segments == []
  }

  /** Before entry `k`, queue `i` was tried in this pass and yielded nothing that fits. */
  ghost predicate Tried(log: seq<Attempt>, k: nat, pass: nat, i: nat)
    requires k <= |log|
  {
    exists j :: 0 <= j < k && log[j].pass == pass && log[j].queue == i
                && (log[j].outcome.Empty? || log[j].outcome.Oversized?)
  }

  ghost predicate Covered(log: seq<Attempt>, pass: nat, states: seq<Rlc>, i: nat)
    requires i < |states|
  {
    Idle(states[i]) || Tried(log, |log|, pass, i)
  }

  /** Queue `i` has a higher priority than the queue of the attempt. */
  predicate Outranks(priorities: seq<nat>, i: nat, a: Attempt) {
    && i < |priorities| == |a.before| && a.queue < |priorities|
    && priorities[i] > priorities[a.queue]
  }

  /** A packet leaves a queue only if every queue of higher priority was empty or was tried in vain in that pass. */
  ghost predicate StrictPriority(log: seq<Attempt>, priorities: seq<nat>) {
    forall k, i: nat :: 0 <= k < |log| && log[k].outcome.Sent? && Outranks(priorities, i, log[k]) ==>
      Idle(log[k].before[i]) || Tried(log, k, log[k].pass, i)
  }

  function SentBytes(log: seq<Attempt>): seq<seq<Byte>> {
    if log == [] then []
    else
      var k := |log| - 1;
      var a := log[k];
      SentBytes(log[..k]) + (if a.outcome.Sent? && a.out.Some? then [a.out.value.bytes] else [])
  }

  function Total(packets: seq<seq<Byte>>): nat {
    if packets == [] then 0 else Total(packets[..|packets| - 1]) + |packets[|packets| - 1]|
  }

  /** Every sent packet fits the budget it was taken with. */
  predicate Fitting(log: seq<Attempt>) {
    forall k :: 0 <= k < |log| && log[k].outcome.Sent? ==>
      log[k].out.Some? && |log[k].out.value.bytes| <= log[k].budget
  }

  ghost predicate AllInv(states: seq<Rlc>) {
    forall i :: 0 <= i < |states| ==> RlcInv(states[i])
  }

  // ---------------------------------------------------------------------------------------------
  // Round robin
  // ---------------------------------------------------------------------------------------------

  /** Position `p + d` on a ring of `n`, for `p` and `d` below `n`. */
  function Wrap(p: nat, d: nat, n: nat): nat
    requires p < n && d <= n
  {
    if p + d < n then p + d else p + d - n
  }

  /** How far position `q` is ahead of position `s`. */
  function Ahead(s: nat, q: nat, n: nat): nat
    requires s < n && q < n
  {
    if q >= s then q - s else q - s + n
  }

  lemma {:induction false} RemWraps(x: nat, d: nat, n: nat)
    requires d < n
    ensures Rem(x + d, n) == Wrap(Rem(x, n), d, n)
  {
    if x >= n {
      RemWraps(x - n, d, n);
    }
  }

  /**
   What one stretch of a slot did: it sent `packets`, within one pass, and they account for the budget used. If nothing
   was sent, every try was made with the same budget.
  */
  ghost predicate Accounts(log0: seq<Attempt>, log: seq<Attempt>, left0: nat, left: nat,
                           packets: seq<seq<Byte>>, pass: nat)
  {
    && log0 <= log
    && SentBytes(log) == SentBytes(log0) + packets
    && left + Total(packets) == left0
    && (packets != [] ==> left < left0)
    && (forall k :: |log0| <= k < |log| ==> log[k].pass == pass)
    && (packets == [] ==> forall k :: |log0| <= k < |log| ==> log[k].budget == left)
  }

  /** One more try, or none, with what is left. */
  lemma AccountsStep(log0: seq<Attempt>, before: seq<Attempt>, log: seq<Attempt>, left0: nat, left: nat,
                     packets: seq<seq<Byte>>, pass: nat, more: seq<seq<Byte>>)
    requires Accounts(log0, before, left0, left, packets, pass)
    requires before <= log && forall k :: |before| <= k < |log| ==> log[k].pass == pass && log[k].budget == left
    requires SentBytes(log) == SentBytes(before) + more
    requires more != [] ==> |more| == 1 && 0 < |more[0]| <= left
    ensures Total(more) <= left && Accounts(log0, log, left0, left - Total(more), packets + more, pass)
    ensures more == [] ==> packets + more == packets && Total(more) == 0
    ensures more != [] ==> Total(more) == |more[0]|
  {
    if more == [] {
      assert packets + more == packets;
    } else {
      assert (packets + more)[..|packets|] == packets && more[..0] == [];
    }
  }

  // ---------------------------------------------------------------------------------------------
  // Facts about the log
  // ---------------------------------------------------------------------------------------------

  /** The log and the states after one more attempt. */
  lemma LogOne(start: seq<Rlc>, log: seq<Attempt>, a: Attempt, after: seq<Rlc>, priorities: seq<nat>)
    requires Chain(start, log, a.before) && Genuine(a, after)
    requires StrictPriority(log, priorities) && Fitting(log)
    requires a.outcome.Sent? ==> a.out.Some? && |a.out.value.bytes| <= a.budget
    requires a.outcome.Sent? ==>
               forall i: nat :: Outranks(priorities, i, a) ==> Covered(log, a.pass, a.before, i)
    ensures Chain(start, log + [a], after)
    ensures StrictPriority(log + [a], priorities) && Fitting(log + [a])
    ensures SentBytes(log + [a]) == SentBytes(log) + if a.outcome.Sent? then [a.out.value.bytes] else []
  {
    var log' := log + [a];
    assert log'[..|log|] == log;
    forall k, i: nat | 0 <= k < |log'| && log'[k].outcome.Sent? && Outranks(priorities, i, log'[k])
      ensures Idle(log'[k].before[i]) || Tried(log', k, log'[k].pass, i)
    {
      TriedPrefix(log, a, k, log'[k].pass, i);
    }
  }

  /** The tries before entry `k` are the same in a longer log. */
  lemma TriedPrefix(log: seq<Attempt>, a: Attempt, k: nat, pass: nat, i: nat)
    requires k <= |log|
    ensures Tried(log + [a], k, pass, i) <==> Tried(log, k, pass, i)
  {
    if Tried(log, k, pass, i) {
      var j :| 0 <= j < k && log[j].pass == pass && log[j].queue == i
               && (log[j].outcome.Empty? || log[j].outcome.Oversized?);
      assert (log + [a])[j] == log[j];
    }
  }

  /** A queue that is covered stays covered, whatever queue is tried in vain next. */
  lemma CoveredStays(log: seq<Attempt>, a: Attempt, after: seq<Rlc>, i: nat)
    requires Genuine(a, after) && i < |a.before| && Covered(log, a.pass, a.before, i)
    requires a.queue == i ==> a.outcome.Empty? || a.outcome.Oversized?
    ensures Covered(log + [a], a.pass, after, i)
  {
    var log' := log + [a];
    if a.queue == i {
      assert log'[|log|] == a;
    } else if Tried(log, |log|, a.pass, i) {
      TriedPrefix(log, a, |log|, a.pass, i);
      var j :| 0 <= j < |log| && log'[j].pass == a.pass && log'[j].queue == i
               && (log'[j].outcome.Empty? || log'[j].outcome.Oversized?);
      assert Tried(log', |log'|, a.pass, i);
    }
  }

  /**
   What the environment decides: the RLC inputs and the PHY's answer for each try, and whether the scheduler is
   still running at each pass.
  */
  datatype Env = Env(x: nat -> Input, phy: nat -> bool, running: nat -> bool)

  /** What was dequeued fits the budget. */
  predicate Fits(a: Attempt) {
    a.out.Some? && |a.out.value.bytes| <= a.budget
  }

  /** The try used the RLC input `x`, and what fits was sent or refused as the PHY answered. */
  ghost predicate Decided(a: Attempt, x: Input, phy: bool) {
    && a.x == x
    && (a.outcome.Sent? <==> Fits(a) && phy)
    && (a.outcome.Refused? <==> Fits(a) && !phy)
  }

  /** Every try went as the environment had it. */
  ghost predicate Answered(log: seq<Attempt>, env: Env) {
    forall k :: 0 <= k < |log| ==> Decided(log[k], env.x(k), env.phy(k))
  }

  predicate NoneRefused(log: seq<Attempt>) {
    forall k :: 0 <= k < |log| ==> !log[k].outcome.Refused?
  }

  /** A refusal is the last entry and there is no other. */
  predicate RefusedAtEnd(log: seq<Attempt>, refused: bool) {
    if refused then log != [] && log[|log| - 1].outcome.Refused? && NoneRefused(log[..|log| - 1])
    else NoneRefused(log)
  }

  /** `b` tries the first queue of the group, in ring order behind the one that `a` tried, that holds something. */
  ghost predicate NextInRing(indices: seq<nat>, a: Attempt, b: Attempt) {
    exists p :: 0 <= p < |indices| && indices[p] == a.queue && HoldsFrom(indices, Rem(p + 1, |indices|), b)
  }

  /** `b` tries the queue `d` positions behind `from`, and those before it hold nothing. */
  ghost predicate FirstHolding(indices: seq<nat>, from: nat, d: nat, b: Attempt) {
    && from < |indices| && d < |indices| && b.queue == indices[Wrap(from, d, |indices|)]
    && b.queue < |b.before| && !Idle(b.before[b.queue])
    && forall e :: 0 <= e < d ==>
         var i := indices[Wrap(from, e, |indices|)]; i < |b.before| && Idle(b.before[i])
  }

  /** The round-robin pointer stands behind the queue that `a` tried. */
  ghost predicate PointsBehind(indices: seq<nat>, last: nat, a: Attempt) {
    exists p :: 0 <= p < |indices| && last == Rem(p + 1, |indices|) && indices[p] == a.queue
  }

  /** The try began at the pointer `last` and left it at `last'`. */
  ghost predicate Served(indices: seq<nat>, last: nat, last': nat, b: Attempt) {
    && PointsBehind(indices, last', b) && indices != []
    && HoldsFrom(indices, Rem(last, |indices|), b)
  }

  lemma ServedNext(indices: seq<nat>, last: nat, last': nat, a: Attempt, b: Attempt)
    requires PointsBehind(indices, last, a) && Served(indices, last, last', b)
    ensures NextInRing(indices, a, b)
  {
    var p :| 0 <= p < |indices| && last == Rem(p + 1, |indices|) && indices[p] == a.queue;
    RemSmall(last, |indices|);
  }

  ghost predicate HoldsFrom(indices: seq<nat>, from: nat, b: Attempt) {
    exists d :: FirstHolding(indices, from, d, b)
  }

  /** From entry `from` on, each try goes on in the ring where the one before it left off. */
  ghost predicate RoundRobin(indices: seq<nat>, log: seq<Attempt>, from: nat) {
    forall k :: from < k < |log| ==> NextInRing(indices, log[k - 1], log[k])
  }

  // ---------------------------------------------------------------------------------------------
  // The class
  // ---------------------------------------------------------------------------------------------

  class MacSender {
    const queues: seq<RlcSender>
    const priorities: seq<nat>

    ghost predicate Valid() {
      && |queues| == |priorities|
      && forall i, j :: 0 <= i < j < |queues| ==> queues[i] != queues[j]
    }

    ghost predicate Snapshot(states: seq<Rlc>)
      reads queues
    {
      |states| == |queues| && forall i :: 0 <= i < |queues| ==> states[i] == queues[i].State()
    }

    method TryQueue(i: nat, budget: nat, x: Input, ghost states: seq<Rlc>)
      returns (out: Option<Pdu>, ghost after: seq<Rlc>)
      requires Valid() && i < |queues| && Snapshot(states) && AllInv(states)
      modifies queues[i]
      ensures Snapshot(after) && AllInv(after)
      ensures out == Dequeue(states[i], budget, x, 0).1
      ensures after == states[i := Dequeue(states[i], budget, x, 0).0]
    {
      out := queues[i].DequeuePacket(budget, x, 0);
      after := states[i := Dequeue(states[i], budget, x, 0).0];
      DequeueFlow(states[i], budget, x, 0, after[i], out);
    }

    /** The next queue of the group, from the round-robin pointer on, that holds something. */
    method FindQueue(indices: seq<nat>, last: nat, ghost states: seq<Rlc>)
      returns (found: bool, position: nat, ghost skipped: nat)
      requires Valid() && Snapshot(states) && indices != []
      requires forall k :: 0 <= k < |indices| ==> indices[k] < |queues|
      ensures position < |indices| && skipped <= |indices|
      ensures forall d :: 0 <= d < skipped ==> Idle(states[indices[Wrap(Rem(last, |indices|), d, |indices|)]])
      ensures found ==>
                && skipped < |indices| && position == Wrap(Rem(last, |indices|), skipped, |indices|)
                && !Idle(states[indices[position]])
      ensures !found ==> skipped == |indices|
    {
      position := 0;
      found := false;
      skipped := 0;
      for offset := 0 to |indices|
        invariant position < |indices| && skipped == offset
        invariant forall d :: 0 <= d < offset ==> Idle(states[indices[Wrap(Rem(last, |indices|), d, |indices|)]])
      {
        RemWraps(last, offset, |indices|);
        position := Rem(last + offset, |indices|);
        if queues[indices[position]].packets != [] || queues[indices[position]].segments != [] {
          return true, position, offset;
        }
        skipped := offset + 1;
      }
    }

    /** What holds of the log and of the queues at every moment of a slot. */
    ghost predicate LogInv(start: seq<Rlc>, log: seq<Attempt>, states: seq<Rlc>)
      reads queues
    {
      && Snapshot(states) && AllInv(states)
      && Chain(start, log, states) && StrictPriority(log, priorities) && Fitting(log)
    }

    /** Every queue of higher priority was empty or tried in vain in this pass. */
    ghost predicate HigherCovered(log: seq<Attempt>, pass: nat, states: seq<Rlc>, priority: nat) {
      |states| == |priorities| && forall i: nat :: i < |priorities| && priorities[i] > priority ==>
        Covered(log, pass, states, i)
    }

    /** Dequeue from queue `i` and hand the packet to the PHY if it fits. */
    method AttemptQueue(i: nat, pass: nat, left: nat, x: Input, phy: bool,
                        ghost start: seq<Rlc>, ghost log: seq<Attempt>, ghost states: seq<Rlc>)
      returns (outcome: Outcome, packet: seq<Byte>, ghost a: Attempt, ghost after: seq<Rlc>)
      requires Valid() && i < |queues| && LogInv(start, log, states)
      requires HigherCovered(log, pass, states, priorities[i])
      modifies queues[i]
      ensures a.pass == pass && a.queue == i && a.budget == left && a.before == states && a.outcome == outcome
      ensures Decided(a, x, phy)
      ensures Genuine(a, after) && LogInv(start, log + [a], after)
      ensures outcome.Sent? ==> 0 < |packet| <= left
      ensures SentBytes(log + [a]) == SentBytes(log) + if outcome.Sent? then [packet] else []
    {
      var out;
      out, after := TryQueue(i, left, x, states);
      packet := if out.Some? then out.value.bytes else [];
      outcome := if out.None? then Empty else if |packet| > left then Oversized else if phy then Sent else Refused;
      a := Attempt(pass, i, left, states, x, out, outcome);
      if out.Some? {
        ResultSize(states[i], left, x, 0, after[i], out);
      }
      LogOne(start, log, a, after, priorities);
    }

    /** Queues of higher priority stay covered when a queue of this priority is tried. */
    lemma HigherStay(log: seq<Attempt>, a: Attempt, after: seq<Rlc>, priority: nat)
      requires HigherCovered(log, a.pass, a.before, priority) && Genuine(a, after)
      requires a.queue < |priorities| && priorities[a.queue] == priority
      ensures HigherCovered(log + [a], a.pass, after, priority)
    {
      forall i: nat | i < |priorities| && priorities[i] > priority
        ensures Covered(log + [a], a.pass, after, i)
      {
        CoveredStays(log, a, after, i);
      }
    }

    /**
     One turn of the inner loop: find the next queue that holds something and try it. `s` and `d` describe the arc of
     queues covered since the last packet was sent.
    */
    method TryNext(g: Group, pass: nat, last: nat, left: nat, x: Input, phy: bool, ghost start: seq<Rlc>,
                   ghost log: seq<Attempt>, ghost states: seq<Rlc>, ghost s: nat, ghost d: nat)
      returns (some: bool, outcome: Outcome, packet: seq<Byte>, last': nat,
               ghost log': seq<Attempt>, ghost states': seq<Rlc>, ghost s': nat, ghost d': nat)
      requires Valid() && LogInv(start, log, states) && InGroup(g, priorities)
      requires HigherCovered(log, pass, states, g.priority)
      requires RingInv(g.indices, s, d, last, log, pass, states)
      modifies queues
      ensures LogInv(start, log', states') && HigherCovered(log', pass, states', g.priority)
      ensures RingInv(g.indices, s', d', last', log', pass, states')
      ensures log <= log' && forall k :: |log| <= k < |log'| ==> log'[k].pass == pass && log'[k].budget == left
      ensures SentBytes(log') == SentBytes(log) + if some && outcome.Sent? then [packet] else []
      ensures !some ==> forall k :: 0 <= k < |g.indices| ==> Covered(log', pass, states', g.indices[k])
      ensures some && outcome.Sent? ==> 0 < |packet| <= left && d' == 0
      ensures some && (outcome.Empty? || outcome.Oversized?) ==> d' > d
      ensures !some ==> log' == log
      ensures some ==> |log'| == |log| + 1 && log'[|log|].outcome == outcome && Decided(log'[|log|], x, phy)
      ensures some ==> Served(g.indices, last, last', log'[|log|])
    {
      var n := |g.indices|;
      var position;
      ghost var skipped;
      some, position, skipped := FindQueue(g.indices, last, states);
      outcome, packet, last' := Empty, [], last;
      log', states', s', d' := log, states, s, d;
      if !some {
        AllIdle(g.indices, Rem(last, n), log, pass, states);
        return;
      }
      last' := Rem(position + 1, n);
      ghost var a;
      outcome, packet, a, states' := AttemptQueue(g.indices[position], pass, left, x, phy, start, log, states);
      log' := log + [a];
      assert g.indices[position] == a.queue;
      assert FirstHolding(g.indices, Rem(last, n), skipped, a);
      HigherStay(log, a, states', g.priority);
      if outcome.Empty? || outcome.Oversized? {
        d' := d + skipped + 1;
        if d >= n {
          ArcStaysFull(g.indices, s, d, d', log, a, states');
        } else {
          ArcGrows(g.indices, s, d, skipped, log, a, states');
        }
        if d' < n {
          PointerMoves(s, d, skipped, n);
        }
      } else {
        s', d' := last', 0;
        RemSmall(last', n);
        assert Rem(last', n) == Wrap(s', d', n);
      }
    }

    /** The inner loop for one priority: round robin until a full round is in vain or nothing is left. */
    method ProcessGroup(g: Group, pass: nat, last0: nat, left0: nat, env: Env, tries0: nat,
                        ghost start: seq<Rlc>, ghost log0: seq<Attempt>, ghost states0: seq<Rlc>)
      returns (last: nat, left: nat, tries: nat, found: bool, refused: bool, packets: seq<seq<Byte>>,
               ghost log: seq<Attempt>, ghost states: seq<Rlc>)
      requires Valid() && LogInv(start, log0, states0) && InGroup(g, priorities)
      requires HigherCovered(log0, pass, states0, g.priority)
      requires Answered(log0, env) && NoneRefused(log0) && tries0 == |log0|
      modifies queues
      ensures LogInv(start, log, states) && HigherCovered(log, pass, states, g.priority)
      ensures Answered(log, env) && RefusedAtEnd(log, refused) && tries == |log|
      ensures RoundRobin(g.indices, log, |log0|)
      ensures Accounts(log0, log, left0, left, packets, pass) && (found <==> packets != [])
      ensures !found && !refused && left > 0 ==>
                forall k :: 0 <= k < |g.indices| ==> Covered(log, pass, states, g.indices[k])
    {
      var n := |g.indices|;
      last, left, tries, found, refused, packets := last0, left0, tries0, false, false, [];
      log, states := log0, states0;
      if n == 0 {
        return;
      }
      var attempts := 0;
      ghost var s: nat, d: nat := Rem(last, n), 0;
      while attempts < n && left > 0
        invariant LogInv(start, log, states) && HigherCovered(log, pass, states, g.priority)
        invariant RingInv(g.indices, s, d, last, log, pass, states) && attempts <= d
        invariant tries == |log| >= |log0| && GroupTries(g.indices, log, |log0|, env, last)
        invariant Accounts(log0, log, left0, left, packets, pass) && (found <==> packets != [])
        decreases left, n - attempts
      {
        var some, outcome, packet;
        ghost var before, pointer := log, last;
        some, outcome, packet, last, log, states, s, d :=
          TryNext(g, pass, last, left, env.x(tries), env.phy(tries), start, log, states, s, d);
        AccountsStep(log0, before, log, left0, left, packets, pass, if some && outcome.Sent? then [packet] else []);
        if !some {
          return;
        }
        tries := tries + 1;
        OneMoreTry(before, log, env, g.indices, |log0|, pointer, last);
        match outcome {
          case Empty =>
            attempts := attempts + 1;
          case Oversized =>
            attempts := attempts + 1;
          case Refused =>
            refused := true;
            return;
          case Sent =>
            left := left - |packet|;
            packets := packets + [packet];
            found := true;
            attempts := 0;
        }
      }
      if attempts >= n {
        ArcFull(g.indices, s, d, log, pass, states);
      }
    }

    /** One pass over the priorities; it ends with the first group that sent something. */
    method ProcessPass(groups: seq<Group>, pass: nat, last0: nat, left0: nat, env: Env, tries0: nat,
                       ghost start: seq<Rlc>, ghost log0: seq<Attempt>, ghost states0: seq<Rlc>)
      returns (last: nat, left: nat, tries: nat, refused: bool, packets: seq<seq<Byte>>,
               ghost log: seq<Attempt>, ghost states: seq<Rlc>)
      requires Valid() && LogInv(start, log0, states0) && left0 > 0
      requires Grouped(groups, priorities)
      requires Answered(log0, env) && NoneRefused(log0) && tries0 == |log0|
      modifies queues
      ensures LogInv(start, log, states)
      ensures Answered(log, env) && RefusedAtEnd(log, refused) && tries == |log|
      ensures Accounts(log0, log, left0, left, packets, pass)
      ensures packets == [] && !refused ==> forall i: nat :: i < |queues| ==> Covered(log, pass, states, i)
    {
      last, left, tries, refused, packets := last0, left0, tries0, false, [];
      log, states := log0, states0;
      var k := 0;
      assert forall i: nat :: i < |priorities| ==> !CoveredBy(groups, 0, i);
      while k < |groups|
        invariant k <= |groups| && left == left0
        invariant LogInv(start, log, states) && Accounts(log0, log, left0, left, [], pass)
        invariant Answered(log, env) && NoneRefused(log) && tries == |log| && !refused
        invariant forall i: nat :: i < |priorities| && CoveredBy(groups, k, i) ==> Covered(log, pass, states, i)
      {
        HigherGroups(groups, priorities, k, log, pass, states);
        var found, out;
        ghost var before := log;
        last, left, tries, found, refused, out, log, states :=
          ProcessGroup(groups[k], pass, last, left, env, tries, start, log, states);
        AccountsJoin(log0, before, log, left0, left, out, pass);
        if found || refused {
          packets := out;
          return;
        }
        NextGroup(groups, priorities, k, log, pass, states);
        k := k + 1;
      }
      forall i: nat | i < |queues| ensures Covered(log, pass, states, i) {
        assert Contains(groups, i);
      }
    }

    /**
     One slot. Never more than the budget is sent; priority is strict; what fits is sent or refused as the PHY answers,
     and a refusal ends the slot at once; and if it ends with budget left although the PHY took everything and the
     scheduler kept running, every queue was tried in vain with just that budget.
    */
    method ProcessSlot(budget: nat, env: Env, ghost start: seq<Rlc>)
      returns (end: End, left: nat, packets: seq<seq<Byte>>,
               ghost log: seq<Attempt>, ghost states: seq<Rlc>, ghost pass: nat)
      requires Valid() && Snapshot(start) && AllInv(start)
      modifies queues
      ensures Snapshot(states) && AllInv(states) && Chain(start, log, states)
      ensures StrictPriority(log, priorities) && Fitting(log)
      ensures packets == SentBytes(log) && left + Total(packets) == budget
      ensures end.Finished? && left > 0 ==> forall i: nat :: i < |queues| ==> Covered(log, pass, states, i)
      ensures end.Finished? ==> forall k :: 0 <= k < |log| && log[k].pass == pass ==> log[k].budget == left
      ensures end.Stopped? ==> !env.running(pass)
      ensures Answered(log, env) && forall k :: 0 <= k < |log| ==> env.running(log[k].pass)
      ensures RefusedAtEnd(log, end.PhyRefused?)
      ensures (forall k :: env.phy(k)) && (forall n :: env.running(n)) ==> end.Finished?
    {
      left, packets, log, states, pass := budget, [], [], start, 0;
      var groups := BuildGroups(priorities);
      GroupsAreGrouped(groups, priorities);
      var last, tries, count := 0, 0, 0;
      while left > 0
        invariant LogInv(start, log, states) && pass == count
        invariant packets == SentBytes(log) && left + Total(packets) == budget
        invariant forall k :: 0 <= k < |log| ==> log[k].pass < pass && env.running(log[k].pass)
        invariant Answered(log, env) && NoneRefused(log) && tries == |log|
        decreases left
      {
        if !env.running(count) {
          return Stopped, left, packets, log, states, pass;
        }
        ghost var before := log;
        var refused, out;
        last, left, tries, refused, out, log, states :=
          ProcessPass(groups, count, last, left, env, tries, start, log, states);
        TotalAppend(packets, out);
        packets := packets + out;
        if refused {
          return PhyRefused, left, packets, log, states, pass;
        }
        if out == [] {
          return Finished, left, packets, log, states, pass;
        }
        count := count + 1;
        pass := pass + 1;
      }
      end := Finished;
    }
  }

  /** What the round robin of a group keeps of the log from entry `from` on. */
  ghost predicate GroupTries(indices: seq<nat>, log: seq<Attempt>, from: nat, env: Env, last: nat) {
    && Answered(log, env) && NoneRefused(log) && RoundRobin(indices, log, from)
    && (|log| > from ==> PointsBehind(indices, last, log[|log| - 1]))
  }

  lemma OneMoreTry(before: seq<Attempt>, log: seq<Attempt>, env: Env, indices: seq<nat>, from: nat,
                   last: nat, last': nat)
    requires from <= |before| && GroupTries(indices, before, from, env, last)
    requires |log| == |before| + 1 && before <= log
    requires Decided(log[|before|], env.x(|before|), env.phy(|before|))
    requires Served(indices, last, last', log[|before|])
    ensures Answered(log, env) && RoundRobin(indices, log, from)
    ensures RefusedAtEnd(log, log[|before|].outcome.Refused?)
    ensures !log[|before|].outcome.Refused? ==> GroupTries(indices, log, from, env, last')
  {
    assert log[..|before|] == before;
    if |before| > from {
      ServedNext(indices, last, last', log[|before| - 1], log[|before|]);
    }
  }

  datatype End = Finished | Stopped | PhyRefused

  lemma {:induction false} TotalAppend(a: seq<seq<Byte>>, b: seq<seq<Byte>>)
    ensures Total(a + b) == Total(a) + Total(b)
  {
    if b == [] {
      assert a + b == a;
    } else {
      assert (a + b)[..|a + b| - 1] == a + b[..|b| - 1];
      TotalAppend(a, b[..|b| - 1]);
    }
  }

  lemma GroupsAreGrouped(groups: seq<Group>, priorities: seq<nat>)
    requires Sound(groups, priorities) && Descending(groups)
    requires forall i: nat :: i < |priorities| ==> Contains(groups, i)
    ensures Grouped(groups, priorities)
  {
  }

  /** The groups hold exactly the queues, by descending priority. */
  ghost predicate Grouped(groups: seq<Group>, priorities: seq<nat>) {
    && (forall g :: 0 <= g < |groups| ==> InGroup(groups[g], priorities))
    && Descending(groups)
    && forall i: nat :: i < |priorities| ==> Contains(groups, i)
  }

  /** Queue `i` is in one of the first `k` groups. */
  ghost predicate CoveredBy(groups: seq<Group>, k: nat, i: nat)
    requires k <= |groups|
  {
    exists g :: 0 <= g < k && i in groups[g].indices
  }

  /** Before group `k` the queues of higher priority are those of the earlier groups. */
  lemma HigherGroups(groups: seq<Group>, priorities: seq<nat>, k: nat,
                     log: seq<Attempt>, pass: nat, states: seq<Rlc>)
    requires Grouped(groups, priorities) && k < |groups| && |states| == |priorities|
    requires forall i: nat :: i < |priorities| && CoveredBy(groups, k, i) ==> Covered(log, pass, states, i)
    ensures forall i: nat :: i < |priorities| && priorities[i] > groups[k].priority ==> Covered(log, pass, states, i)
  {
    forall i: nat | i < |priorities| && priorities[i] > groups[k].priority ensures Covered(log, pass, states, i) {
      assert Contains(groups, i);
      var g :| 0 <= g < |groups| && i in groups[g].indices;
      assert InGroup(groups[g], priorities);
      assert g < k;
    }
  }

  /** After group `k` in vain its queues are covered as well. */
  lemma NextGroup(groups: seq<Group>, priorities: seq<nat>, k: nat, log: seq<Attempt>, pass: nat, states: seq<Rlc>)
    requires Grouped(groups, priorities) && k < |groups| && |states| == |priorities|
    requires forall i: nat :: i < |priorities| && priorities[i] > groups[k].priority ==> Covered(log, pass, states, i)
    requires InGroup(groups[k], priorities)
    requires forall j :: 0 <= j < |groups[k].indices| ==> Covered(log, pass, states, groups[k].indices[j])
    ensures forall i: nat :: i < |priorities| && CoveredBy(groups, k + 1, i) ==> Covered(log, pass, states, i)
  {
    forall i: nat | i < |priorities| && CoveredBy(groups, k + 1, i) ensures Covered(log, pass, states, i) {
      var g :| 0 <= g < k + 1 && i in groups[g].indices;
      assert InGroup(groups[g], priorities);
      if g < k {
        assert groups[g].priority > groups[k].priority;
      }
    }
  }

  lemma AccountsJoin(log0: seq<Attempt>, before: seq<Attempt>, log: seq<Attempt>, left0: nat, left: nat,
                     packets: seq<seq<Byte>>, pass: nat)
    requires Accounts(log0, before, left0, left0, [], pass)
    requires Accounts(before, log, left0, left, packets, pass)
    ensures Accounts(log0, log, left0, left, packets, pass)
  {
    assert SentBytes(log0) + [] + packets == SentBytes(log0) + packets;
  }

  lemma RemSmall(p: nat, n: nat)
    requires p < n
    ensures Rem(p, n) == p == Wrap(p, 0, n)
  {
  }

  /** Each index of the group has the group's priority. */
  predicate InGroup(g: Group, priorities: seq<nat>) {
    forall k :: 0 <= k < |g.indices| ==> g.indices[k] < |priorities| && priorities[g.indices[k]] == g.priority
  }

  /** The arc from `s` is covered up to `d`, where the round-robin pointer stands. */
  ghost predicate RingInv(indices: seq<nat>, s: nat, d: nat, last: nat, log: seq<Attempt>, pass: nat, states: seq<Rlc>)
    requires forall k :: 0 <= k < |indices| ==> indices[k] < |states|
  {
    && s < |indices|
    && ArcCovered(indices, s, d, log, pass, states)
    && (d < |indices| ==> Rem(last, |indices|) == Wrap(s, d, |indices|))
  }

  /** Positions of the group up to `d` ahead of `s` are covered. */
  ghost predicate ArcCovered(indices: seq<nat>, s: nat, d: nat, log: seq<Attempt>, pass: nat, states: seq<Rlc>)
    requires forall k :: 0 <= k < |indices| ==> indices[k] < |states|
    requires s < |indices|
  {
    forall q :: 0 <= q < |indices| && Ahead(s, q, |indices|) < d ==> Covered(log, pass, states, indices[q])
  }

  /** One try in vain extends the covered arc over the skipped queues and the tried one. */
  lemma ArcGrows(indices: seq<nat>, s: nat, d: nat, skipped: nat, log: seq<Attempt>, a: Attempt, after: seq<Rlc>)
    requires forall k :: 0 <= k < |indices| ==> indices[k] < |a.before|
    requires s < |indices| && d < |indices| && skipped < |indices|
    requires ArcCovered(indices, s, d, log, a.pass, a.before)
    requires Genuine(a, after) && (a.outcome.Empty? || a.outcome.Oversized?)
    requires var p := Wrap(s, d, |indices|);
             && a.queue == indices[Wrap(p, skipped, |indices|)]
             && forall e :: 0 <= e < skipped ==> Idle(a.before[indices[Wrap(p, e, |indices|)]])
    ensures ArcCovered(indices, s, d + skipped + 1, log + [a], a.pass, after)
  {
    var n := |indices|;
    forall q | 0 <= q < n && Ahead(s, q, n) < d + skipped + 1
      ensures Covered(log + [a], a.pass, after, indices[q])
    {
      AheadPosition(s, d, skipped, q, n);
      if indices[q] == a.queue {
        TriedNow(log, a, after);
      } else {
        assert Covered(log, a.pass, a.before, indices[q]);
        CoveredStays(log, a, after, indices[q]);
      }
    }
  }

  /** A position less than `d + skipped + 1` ahead is in the old arc, was skipped, or is the tried one. */
  lemma AheadPosition(s: nat, d: nat, skipped: nat, q: nat, n: nat)
    requires s < n && d < n && skipped < n && q < n && Ahead(s, q, n) < d + skipped + 1
    ensures Ahead(s, q, n) < d || q == Wrap(Wrap(s, d, n), skipped, n) ||
            exists e :: 0 <= e < skipped && q == Wrap(Wrap(s, d, n), e, n)
  {
    if Ahead(s, q, n) >= d {
      var e := Ahead(s, q, n) - d;
      assert q == Wrap(Wrap(s, d, n), e, n);
    }
  }

  /** The queue just tried in vain is covered. */
  lemma TriedNow(log: seq<Attempt>, a: Attempt, after: seq<Rlc>)
    requires Genuine(a, after) && (a.outcome.Empty? || a.outcome.Oversized?)
    ensures Covered(log + [a], a.pass, after, a.queue)
  {
    assert (log + [a])[|log|] == a;
  }

  lemma ArcFull(indices: seq<nat>, s: nat, d: nat, log: seq<Attempt>, pass: nat, states: seq<Rlc>)
    requires s < |indices| <= d && forall k :: 0 <= k < |indices| ==> indices[k] < |states|
    requires ArcCovered(indices, s, d, log, pass, states)
    ensures forall k :: 0 <= k < |indices| ==> Covered(log, pass, states, indices[k])
  {
    forall k | 0 <= k < |indices| ensures Covered(log, pass, states, indices[k]) {
      assert Ahead(s, k, |indices|) < |indices|;
    }
  }

  /** When the search finds nothing, every queue of the group is empty. */
  lemma AllIdle(indices: seq<nat>, p: nat, log: seq<Attempt>, pass: nat, states: seq<Rlc>)
    requires p < |indices| && forall k :: 0 <= k < |indices| ==> indices[k] < |states|
    requires forall d :: 0 <= d < |indices| ==> Idle(states[indices[Wrap(p, d, |indices|)]])
    ensures forall k :: 0 <= k < |indices| ==> Covered(log, pass, states, indices[k])
  {
    forall k | 0 <= k < |indices| ensures Covered(log, pass, states, indices[k]) {
      assert k == Wrap(p, Ahead(p, k, |indices|), |indices|);
    }
  }

  lemma ArcStaysFull(indices: seq<nat>, s: nat, d: nat, d': nat, log: seq<Attempt>, a: Attempt, after: seq<Rlc>)
    requires s < |indices| <= d && forall k :: 0 <= k < |indices| ==> indices[k] < |a.before|
    requires ArcCovered(indices, s, d, log, a.pass, a.before)
    requires Genuine(a, after) && (a.outcome.Empty? || a.outcome.Oversized?)
    ensures ArcCovered(indices, s, d', log + [a], a.pass, after)
  {
    forall q | 0 <= q < |indices| ensures Covered(log + [a], a.pass, after, indices[q]) {
      assert Ahead(s, q, |indices|) < d;
      CoveredStays(log, a, after, indices[q]);
    }
  }

  /** The pointer after a try lies one past the tried position. */
  lemma PointerMoves(s: nat, d: nat, skipped: nat, n: nat)
    requires s < n && d < n && skipped < n && d + skipped + 1 < n
    ensures Rem(Wrap(Wrap(s, d, n), skipped, n) + 1, n) == Wrap(s, d + skipped + 1, n)
  {
  }
}
