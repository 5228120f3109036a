/**
 The lightweight semaphore with one waiting thread and one signalling thread, as a transition system.
 Each access to the count or to the kernel semaphore is one step. `initial` is the count it was made with;
 `signalled` and `taken` are history: the permits handed in and the waits that returned true. No step reads them.
*/
module Semaphore {

  /** How long a wait may block; `Try` is the plain `tryWait`. */
  datatype Patience = Try | Forever | Timed(usecs: nat)

  datatype Waiter =
    | WIdle
    | WTry(patience: Patience)
    | WTryTake
    | WSpin(patience: Patience, spin: int)
    | WSpinTake
    | WCommit(patience: Patience)
    | WKernel(patience: Patience)
    | WUndo
    | WRedo
    | WTryKernel

  datatype Signaller = SIdle | SAdd(k: nat) | SPost

  datatype Sem = Sem(initial: nat, count: int, kernel: nat, w: Waiter, s: Signaller, signalled: nat, taken: nat)

  function Fresh(initial: nat): Sem {
    Sem(initial, initial, 0, WIdle, SIdle, 0, 0)
  }

  const SPINS := 1024

  function Granted(m: Sem): Sem {
    m.(w := WIdle, taken := m.taken + 1)
  }

  function BeginWait(m: Sem, patience: Patience): Sem {
    m.(w := WTry(patience))
  }

  /**
   One step of the waiting thread. `gaveUp` is the kernel's answer when it holds no token: a timed wait
   may expire and an untimed one may be interrupted; otherwise the thread stays blocked.
  */
  function WaiterStep(m: Sem, gaveUp: bool): Sem {
    match m.w
    case WIdle => m
    case WTry(patience) =>
      if m.count > 0 then m.(w := WTryTake)
      else if patience.Try? then m.(w := WIdle)
      else m.(w := WSpin(patience, SPINS - 1))
    case WTryTake => Granted(m.(count := m.count - 1))
    case WSpin(patience, spin) =>
      if spin < 0 then m.(w := WCommit(patience))
      else if m.count > 0 then m.(w := WSpinTake)
      else m.(w := WSpin(patience, spin - 1))
    case WSpinTake => Granted(m.(count := m.count - 1))
    case WCommit(patience) =>
      var m' := m.(count := m.count - 1);
      if m.count > 0 then Granted(m')
      else if patience == Timed(0) then m'.(w := WUndo)
      else m'.(w := WKernel(patience))
    case WKernel(patience) =>
      if m.kernel > 0 then Granted(m.(kernel := m.kernel - 1))
      else if gaveUp then m.(w := WUndo)
      else m
    case WUndo =>
      var m' := m.(count := m.count + 1);
      if m.count < 0 then m'.(w := WIdle) else m'.(w := WRedo)
    case WRedo =>
      var m' := m.(count := m.count - 1);
      if m.count > 0 then m'.(w := WTryKernel) else m'.(w := WUndo)
    case WTryKernel =>
      if m.kernel > 0 then Granted(m.(kernel := m.kernel - 1)) else m.(w := WUndo)
  }

  function BeginSignal(m: Sem, k: nat): Sem {
    m.(s := SAdd(k))
  }

  function SignallerStep(m: Sem): Sem {
    match m.s
    case SIdle => m
    case SAdd(k) =>
      m.(count := m.count + k, signalled := m.signalled + k, s := if m.count < 0 then SPost else SIdle)
    case SPost => m.(kernel := m.kernel + 1, s := SIdle)
  }

  /** The waiting thread decides to report failure. */
  predicate GivesUp(m: Sem, gaveUp: bool) {
    !m.w.WIdle? && WaiterStep(m, gaveUp).w.WIdle? && WaiterStep(m, gaveUp).taken == m.taken
  }

  // ---------------------------------------------------------------------------------------------
  // The invariant
  // ---------------------------------------------------------------------------------------------

  /** The waiter has subtracted its permit from the count without being granted one yet. */
  function Debt(w: Waiter): int {
    if w.WKernel? || w.WUndo? || w.WTryKernel? then 1 else 0
  }

  /** A token is in the kernel, or about to be put there, exactly when the waiter's permit has been met. */
  function Token(m: Sem): int {
    if Debt(m.w) == 1 then (if m.count >= 0 then 1 else 0) else if m.w.WRedo? then 1 else 0
  }

  predicate Inv(m: Sem) {
    && m.count + m.taken + Debt(m.w) == m.initial + m.signalled
    && m.kernel + (if m.s.SPost? then 1 else 0) == Token(m)
    && m.taken <= m.initial + m.signalled
    && (m.w.WTryTake? || m.w.WSpinTake? || m.w.WRedo? ==> m.count >= 1)
    && (m.w.WTryKernel? ==> m.count >= 0)
  }

  lemma FreshInv(initial: nat)
    ensures Inv(Fresh(initial))
  {
  }

  lemma WaiterKeeps(m: Sem, gaveUp: bool)
    requires Inv(m)
    ensures Inv(WaiterStep(m, gaveUp))
  {
  }

  /** The waiting thread leaves the signaller alone and takes at most one permit, on the step that ends the wait. */
  lemma WaiterFrame(m: Sem, gaveUp: bool)
    ensures var m' := WaiterStep(m, gaveUp);
            && m'.s == m.s && m'.initial == m.initial && m'.signalled == m.signalled
            && (m'.taken == m.taken || (m'.taken == m.taken + 1 && m'.w.WIdle? && !m.w.WIdle?))
  {
  }

  /** The signaller leaves the waiter's program point alone and hands its permits in on one step. */
  lemma SignallerFrame(m: Sem)
    ensures var m' := SignallerStep(m);
            && m'.w == m.w && m'.initial == m.initial && m'.taken == m.taken && !m'.s.SAdd?
            && m'.signalled == m.signalled + (if m.s.SAdd? then m.s.k else 0)
  {
  }

  /** Handing in permits keeps the books exactly when there is one to hand in or nobody is waiting. */
  lemma SignalKeepsIff(m: Sem)
    requires Inv(m) && m.s.SAdd?
    ensures Inv(SignallerStep(m)) <==> m.s.k >= 1 || m.count >= 0
  {
  }

  lemma SignallerKeeps(m: Sem)
    requires Inv(m) && (m.s.SAdd? ==> m.s.k >= 1)
    ensures Inv(SignallerStep(m))
  {
  }

  // ---------------------------------------------------------------------------------------------
  // Runs
  // ---------------------------------------------------------------------------------------------

  datatype Event = Wait(patience: Patience) | WaiterMoves(gaveUp: bool) | Signal(k: nat) | SignallerMoves

  function Step(m: Sem, e: Event): Sem {
    match e
    case Wait(patience) => if m.w.WIdle? then BeginWait(m, patience) else m
    case WaiterMoves(gaveUp) => WaiterStep(m, gaveUp)
    case Signal(k) => if m.s.SIdle? then BeginSignal(m, k) else m
    case SignallerMoves => SignallerStep(m)
  }

  function Run(initial: nat, es: seq<Event>): Sem {
    if es == [] then Fresh(initial) else Step(Run(initial, es[..|es| - 1]), es[|es| - 1])
  }

  predicate PositiveSignals(es: seq<Event>) {
    forall i :: 0 <= i < |es| && es[i].Signal? ==> es[i].k >= 1
  }

  lemma {:induction false} RunInv(initial: nat, es: seq<Event>)
    requires PositiveSignals(es)
    ensures Inv(Run(initial, es)) && Run(initial, es).initial == initial
    ensures (Run(initial, es).s.SAdd? ==> Run(initial, es).s.k >= 1)
  {
    if es != [] {
      var front, e := es[..|es| - 1], es[|es| - 1];
      RunInv(initial, front);
      var m := Run(initial, front);
      match e
      case Wait(_) =>
      case WaiterMoves(gaveUp) => WaiterKeeps(m, gaveUp);
      case Signal(_) =>
      case SignallerMoves => SignallerKeeps(m);
    }
  }

  /**
   No permit is lost or invented in any interleaving: at most as many waits succeed as permits were handed
   in, the count never falls below -1, and between calls it is exactly the number of permits left.
  */
  lemma PermitsConserved(initial: nat, es: seq<Event>)
    requires PositiveSignals(es)
    ensures var m := Run(initial, es);
            && m.taken <= initial + m.signalled
            && m.count >= -1
            && (m.w.WIdle? ==> m.count == initial + m.signalled - m.taken)
            && (m.w.WIdle? && m.s.SIdle? ==> m.kernel == 0)
  {
    RunInv(initial, es);
  }

  /** A failing wait decides at an instant when no permit is available. */
  lemma GivesUpHonestly(initial: nat, es: seq<Event>, gaveUp: bool)
    requires PositiveSignals(es) && GivesUp(Run(initial, es), gaveUp)
    ensures var m := Run(initial, es); m.taken == initial + m.signalled
  {
    RunInv(initial, es);
  }

  /** No wake-up is lost: while a blocked waiter could be served, a token is posted or about to be. */
  lemma NoLostWakeup(initial: nat, es: seq<Event>)
    requires PositiveSignals(es) && Run(initial, es).w.WKernel?
    ensures var m := Run(initial, es);
            m.taken < initial + m.signalled <==> m.kernel == 1 || m.s.SPost?
  {
    RunInv(initial, es);
  }

  /** Once a permit is there, a waiter that has timed out needs at most the signaller's pending post to get it. */
  lemma UndoSettles(m: Sem)
    requires Inv(m) && m.w.WUndo? && m.count >= 0 && m.s.SIdle?
    ensures var m3 := WaiterStep(WaiterStep(WaiterStep(m, false), false), false);
            m3.w.WIdle? && m3.taken == m.taken + 1
  {
  }

  /** Only the signalling thread moves. */
  predicate SignallerOnly(es: seq<Event>) {
    forall i :: 0 <= i < |es| ==> es[i].Signal? || es[i].SignallerMoves?
  }

  lemma {:induction false} SignallerLeavesWaiter(initial: nat, es: seq<Event>, between: seq<Event>)
    requires SignallerOnly(between)
    ensures var m, m' := Run(initial, es), Run(initial, es + between); m'.w == m.w && m'.taken == m.taken
  {
    if between == [] {
      assert es + between == es;
    } else {
      var k := |between| - 1;
      SignallerLeavesWaiter(initial, es, between[..k]);
      assert es + between == es + between[..k] + [between[k]];
      RunSplit(initial, es + between[..k], between[k]);
    }
  }

  /**
   A plain `tryWait` never blocks. It looks once: with a permit there it takes one on its second step, whatever the
   signaller does in between, and without one it is over after the first.
  */
  lemma TryWaitEnds(initial: nat, es: seq<Event>, between: seq<Event>)
    requires PositiveSignals(es) && Run(initial, es).w == WTry(Try) && SignallerOnly(between)
    ensures var m := Run(initial, es);
            var looked := Run(initial, es + [WaiterMoves(false)]);
            var end := Run(initial, es + [WaiterMoves(false)] + between + [WaiterMoves(false)]);
            if m.taken < initial + m.signalled then end.w.WIdle? && end.taken == m.taken + 1
            else looked.w.WIdle? && looked.taken == m.taken
  {
    var first := es + [WaiterMoves(false)];
    RunInv(initial, es);
    RunSplit(initial, es, WaiterMoves(false));
    SignallerLeavesWaiter(initial, first, between);
    RunSplit(initial, first + between, WaiterMoves(false));
  }

  function Waits(n: nat): seq<Event> {
    seq(n, i => WaiterMoves(false))
  }

  lemma {:induction false} RunSplit(initial: nat, es: seq<Event>, e: Event)
    ensures Run(initial, es + [e]) == Step(Run(initial, es), e)
  {
    assert (es + [e])[..|es + [e]| - 1] == es;
  }

  lemma {:induction false} SpinsOut(n: nat)
    requires n <= SPINS
    ensures Run(0, [Wait(Forever), WaiterMoves(false)] + Waits(n))
            == Fresh(0).(w := WSpin(Forever, SPINS - 1 - n))
  {
    var start := [Wait(Forever), WaiterMoves(false)];
    if n == 0 {
      assert start + Waits(0) == start;
      RunSplit(0, [], Wait(Forever));
      assert [] + [Wait(Forever)] == [Wait(Forever)];
      RunSplit(0, [Wait(Forever)], WaiterMoves(false));
      assert [Wait(Forever)] + [WaiterMoves(false)] == start;
    } else {
      SpinsOut(n - 1);
      RunSplit(0, start + Waits(n - 1), WaiterMoves(false));
      assert start + Waits(n) == start + Waits(n - 1) + [WaiterMoves(false)];
    }
  }

  lemma Extend(initial: nat, es: seq<Event>, e: Event, m: Sem) returns (es': seq<Event>)
    requires Step(Run(initial, es), e) == m
    ensures Run(initial, es') == m
  {
    RunSplit(initial, es, e);
    es' := es + [e];
  }

  lemma BlockedWaiter() returns (es: seq<Event>)
    ensures Run(0, es) == Sem(0, -1, 0, WKernel(Forever), SIdle, 0, 0)
  {
    SpinsOut(SPINS);
    es := [Wait(Forever), WaiterMoves(false)] + Waits(SPINS);
    es := Extend(0, es, WaiterMoves(false), Sem(0, 0, 0, WCommit(Forever), SIdle, 0, 0));
    es := Extend(0, es, WaiterMoves(false), Sem(0, -1, 0, WKernel(Forever), SIdle, 0, 0));
  }

  /** `signal(0)`, which the interface allows, wakes a blocked waiter with a permit nobody handed in. */
  lemma ZeroSignalInvents() returns (es: seq<Event>)
    ensures Run(0, es).taken == 1 && Run(0, es).signalled == 0
  {
    es := BlockedWaiter();
    es := Extend(0, es, Signal(0), Sem(0, -1, 0, WKernel(Forever), SAdd(0), 0, 0));
    es := Extend(0, es, SignallerMoves, Sem(0, -1, 0, WKernel(Forever), SPost, 0, 0));
    es := Extend(0, es, SignallerMoves, Sem(0, -1, 1, WKernel(Forever), SIdle, 0, 0));
    es := Extend(0, es, WaiterMoves(false), Sem(0, -1, 0, WIdle, SIdle, 0, 1));
  }
}
