/** What the slot scheduler's log says about the queues. */
module MacTheorems {
  import opened Options
  import opened RlcSegmentation
  import opened RlcSender
  import opened RlcFlow
  import opened MacSender

  /** Along a log every queue keeps its invariant. */
  lemma {:induction false} ChainKeeps(start: seq<Rlc>, log: seq<Attempt>, final: seq<Rlc>)
    requires AllInv(start) && Chain(start, log, final)
    ensures AllInv(final)
  {
    if log != [] {
      var a := log[|log| - 1];
      ChainKeeps(start, log[..|log| - 1], a.before);
      var (r', out) := Dequeue(a.before[a.queue], a.budget, a.x, 0);
      DequeueFlow(a.before[a.queue], a.budget, a.x, 0, r', out);
    }
  }

  /** Each entry of a log is a real dequeue on queues in good order. */
  lemma {:induction false} EntryIsGenuine(start: seq<Rlc>, log: seq<Attempt>, final: seq<Rlc>, k: nat)
    requires AllInv(start) && Chain(start, log, final) && k < |log|
    ensures AllInv(log[k].before)
    ensures k + 1 < |log| ==> Genuine(log[k], log[k + 1].before)
    ensures k + 1 == |log| ==> Genuine(log[k], final)
  {
    var n := |log| - 1;
    var a := log[n];
    assert Genuine(a, final) && Chain(start, log[..n], a.before);
    if k < n {
      EntryIsGenuine(start, log[..n], a.before, k);
    } else {
      ChainKeeps(start, log[..n], a.before);
    }
  }

  /** Why a try was in vain: nothing of the queue fits, or its packet fits with 16 bytes of header but not with 22. */
  predicate InVain(r: Rlc, budget: nat) {
    || Choose(r, budget).Nothing?
    || (r.segments == [] && r.packets != []
        && |r.packets[0].data| + 16 <= budget < |r.packets[0].data| + HEADER_SIZE)
  }

  lemma ChoiceIgnoresPoll(r: Rlc, poll: bool, budget: nat)
    ensures Choose(r.(pollPending := poll), budget) == Choose(r, budget)
  {
    assert Effective(r.(pollPending := poll), budget) == Effective(r, budget);
  }

  lemma VainMeans(a: Attempt, after: seq<Rlc>)
    requires Genuine(a, after) && AllInv(a.before)
    ensures a.outcome.Empty? || a.outcome.Oversized? <==> InVain(a.before[a.queue], a.budget)
    ensures a.outcome.Empty? ==> after[a.queue] == a.before[a.queue].(pollPending := after[a.queue].pollPending)
  {
    var r := a.before[a.queue];
    var (r', out) := Dequeue(r, a.budget, a.x, 0);
    ChoiceIgnoresPoll(r, CheckPollTimer(r, a.x.expired(0)).pollPending, a.budget);
    SomethingIff(r, a.budget, a.x, 0);
    if out.None? {
      NullChangesNothing(r, a.budget, a.x, 0, r');
    } else {
      ResultSize(r, a.budget, a.x, 0, r', out);
    }
  }

  /**
   Work conservation. If a slot ends with `left` bytes although the PHY took everything, each queue is empty or was
   tried in the last pass with exactly that budget, and then nothing of it could be sent within it.
  */
  lemma NothingElseFits(start: seq<Rlc>, log: seq<Attempt>, final: seq<Rlc>, pass: nat, left: nat, i: nat)
    requires AllInv(start) && Chain(start, log, final) && i < |final|
    requires Covered(log, pass, final, i)
    requires forall k :: 0 <= k < |log| && log[k].pass == pass ==> log[k].budget == left
    ensures Idle(final[i]) ||
            exists k :: 0 <= k < |log| && log[k].pass == pass && log[k].queue == i < |log[k].before|
                        && InVain(log[k].before[i], left)
  {
    if !Idle(final[i]) {
      var k :| 0 <= k < |log| && log[k].pass == pass && log[k].queue == i
               && (log[k].outcome.Empty? || log[k].outcome.Oversized?);
      EntryIsGenuine(start, log, final, k);
      VainMeans(log[k], if k + 1 < |log| then log[k + 1].before else final);
      assert InVain(log[k].before[i], left);
    }
  }

  /** Strict priority, for the queues: what outranks a sent packet was empty or had nothing that fits in that pass. */
  lemma HigherHadNothing(start: seq<Rlc>, log: seq<Attempt>, final: seq<Rlc>, priorities: seq<nat>, k: nat, i: nat)
    requires AllInv(start) && Chain(start, log, final) && StrictPriority(log, priorities)
    requires k < |log| && log[k].outcome.Sent? && Outranks(priorities, i, log[k])
    ensures Idle(log[k].before[i]) ||
            exists j :: 0 <= j < k && log[j].pass == log[k].pass && log[j].queue == i < |log[j].before|
                        && InVain(log[j].before[i], log[j].budget)
  {
    if !Idle(log[k].before[i]) {
      assert Tried(log, k, log[k].pass, i);
      var j :| 0 <= j < k && log[j].pass == log[k].pass && log[j].queue == i
               && (log[j].outcome.Empty? || log[j].outcome.Oversized?);
      EntryIsGenuine(start, log, final, j);
      VainMeans(log[j], log[j + 1].before);
      assert InVain(log[j].before[i], log[j].budget);
    }
  }

  /**
   A discarded packet is lost: it is taken from its queue and not sent. That happens exactly when a whole packet fits
   the budget with 16 bytes of header but not with the real 22.
  */
  lemma DiscardLosesThePacket(a: Attempt, after: seq<Rlc>)
    requires Genuine(a, after) && AllInv(a.before)
    ensures a.outcome.Oversized? <==>
              var r := a.before[a.queue];
              && r.segments == [] && r.packets != []
              && |r.packets[0].data| + 16 <= a.budget < |r.packets[0].data| + HEADER_SIZE
    ensures a.outcome.Oversized? ==> after[a.queue].packets == a.before[a.queue].packets[1..]
  {
    var r := a.before[a.queue];
    var r0 := CheckPollTimer(r, a.x.expired(0));
    var (r', out) := Dequeue(r, a.budget, a.x, 0);
    DequeueUnfolds(r, r0, a.budget, a.x, 0);
    if out.Some? {
      ResultSize(r, a.budget, a.x, 0, r', out);
    }
  }
}
