/** The PDUs of one packet, from the sender's cut to the receiver. */
module RlcTransfers {
  import opened Options
  import opened Bytes
  import opened RlcSegmentation
  import opened RlcSender
  import opened RlcFlow
  import opened RlcPdus
  import Receiver = RlcReassembly
  import Rounds = ReassemblyRounds
  import Reassembly = ReassemblyTheorems

  // ---------------------------------------------------------------------------------------------
  // The pieces of a cut go out one after the other
  // ---------------------------------------------------------------------------------------------

  /** A packet that is cut at `max` into `n` pieces. */
  datatype Cutting = Cutting(p: Packet, max: nat, n: nat)

  ghost predicate CutBy(r: Rlc, budget: nat, c: Cutting) {
    && RlcInv(r) && Choose(r, budget).Cutting? && CutFits(r, budget)
    && c.p == r.packets[0] && c.max == MaxPayload(r, budget) && c.n == Needed(r, budget)
  }

  /** The segment is piece `i`, polling or not. */
  predicate PieceIs(s: Segment, c: Cutting, i: nat) {
    IsPiece(s, c.p, c.max, i) && Total(|c.p.data|, c.max) == c.n
  }

  /** What waits are the pieces from `m` on. */
  predicate Remaining(segments: seq<Segment>, c: Cutting, m: nat) {
    m + |segments| == c.n && forall q :: 0 <= q < |segments| ==> PieceIs(segments[q], c, m + q)
  }

  /** The PDU is piece `m`. */
  ghost predicate Carries(pdu: Pdu, c: Cutting, m: nat) {
    exists s: Segment :: pdu.bytes == Serialize(s) && pdu.poll == s.header.poll && PieceIs(s, c, m)
  }

  lemma FrontCarries(r: Rlc, c: Cutting, m: nat)
    requires Counted(r) && Remaining(r.segments, c, m) && r.segments != []
    ensures var (r', out) := FrontOut(r);
            out.Some? && Carries(out.value, c, m) && Remaining(r'.segments, c, m + 1)
  {
    var s := r.segments[0];
    FrontBytes(r);
    var out := FrontOut(r).1;
    assert PieceIs(s, c, m + 0);
    PieceLast(s, c.p, c.max, m);
    assert PieceIs(s.(header := s.header.(poll := out.value.poll)), c, m);
    forall q | 0 <= q < |r.segments| - 1 ensures PieceIs(r.segments[1..][q], c, m + 1 + q) {
      assert r.segments[1..][q] == r.segments[q + 1] && PieceIs(r.segments[q + 1], c, m + (q + 1));
    }
  }

  lemma CutLeavesAll(r: Rlc, budget: nat, c: Cutting)
    requires CutBy(r, budget, c)
    ensures Remaining(CutOut(r, budget).segments, c, 0) && c.n > 0
  {
    AllAdmitted(r, budget);
    forall q | 0 <= q < c.n ensures PieceIs(FrontSegments(r, budget)[q], c, 0 + q) {
      FrontSegmentsArePieces(r, budget, q);
    }
  }

  lemma TimerKeepsCut(r: Rlc, expired: bool, budget: nat, c: Cutting)
    requires CutBy(r, budget, c)
    ensures CutBy(CheckPollTimer(r, expired), budget, c)
  {
    TimerKeeps(r, expired);
    TimerKeepsChoice(r, expired, budget);
    assert Effective(CheckPollTimer(r, expired), budget) == Effective(r, budget);
  }

  /** The call that cuts hands out the first piece. */
  lemma CutCarriesFirst(r: Rlc, budget: nat, x: Input, c: Cutting)
    requires CutBy(r, budget, c)
    ensures var (r', out) := Dequeue(r, budget, x, 0);
            out.Some? && Carries(out.value, c, 0) && Remaining(r'.segments, c, 1)
  {
    var r0 := CheckPollTimer(r, x.expired(0));
    TimerKeepsCut(r, x.expired(0), budget, c);
    var r2, expired := CutResult(r, budget, x, 0, r0);
    CutLeavesAll(r0, budget, c);
    FrontCarries(r2, c, 0);
  }

  /** The next call hands out the next piece, or nothing. */
  lemma NextCarries(r: Rlc, budget: nat, x: Input, c: Cutting, m: nat)
    requires RlcInv(r) && Remaining(r.segments, c, m) && r.segments != []
    ensures var (r', out) := Dequeue(r, budget, x, 0);
            if out.Some? then Carries(out.value, c, m) && Remaining(r'.segments, c, m + 1)
            else Remaining(r'.segments, c, m)
  {
    var r0 := CheckPollTimer(r, x.expired(0));
    DequeueUnfolds(r, r0, budget, x, 0);
    if Choose(r0, budget).Front? {
      FrontCarries(r0, c, m);
    }
  }

  // ---------------------------------------------------------------------------------------------
  // Over a run
  // ---------------------------------------------------------------------------------------------

  ghost predicate AllCounted(lines: seq<Line>) {
    forall i :: 0 <= i < |lines| ==> Counted(lines[i].r)
  }

  /** How many PDUs the steps from `k` to `j` hand out. */
  function OutCount(lines: seq<Line>, ops: seq<Op>, k: nat, j: nat): nat
    requires k <= j <= |ops| < |lines| && AllCounted(lines)
  {
    if k == j then 0 else OutCount(lines, ops, k, j - 1) + if OutAt(lines, ops, j - 1).Some? then 1 else 0
  }

  lemma OutCountGrows(lines: seq<Line>, ops: seq<Op>, k: nat, j: nat, m: nat)
    requires k < j <= |ops| < |lines| && AllCounted(lines) && m == OutCount(lines, ops, k, j - 1)
    ensures m <= OutCount(lines, ops, k, j)
  {
  }

  lemma OutCountStep(lines: seq<Line>, ops: seq<Op>, k: nat, i: nat, j: nat, m: nat, out: Option<Pdu>)
    requires k <= i < j <= |ops| < |lines| && j == i + 1 && AllCounted(lines)
    requires m == OutCount(lines, ops, k, i) && out == OutAt(lines, ops, i)
    ensures OutCount(lines, ops, k, j) == m + if out.Some? then 1 else 0
  {
  }

  lemma RunCounted(lines: seq<Line>, ops: seq<Op>, bufferSize: nat, poll: bool)
    requires UsableSize(bufferSize) && IsRun(lines, ops, bufferSize, poll)
    ensures AllCounted(lines)
  {
    forall i | 0 <= i < |lines| ensures Counted(lines[i].r) {
      RunKeeps(lines, ops, bufferSize, poll, i);
    }
  }

  ghost predicate CutsAt(lines: seq<Line>, ops: seq<Op>, k: nat, c: Cutting)
    requires k < |ops| < |lines|
  {
    ops[k].Get? && CutBy(lines[k].r, ops[k].budget, c)
  }

  lemma StepRemains(a: Line, op: Op, b: Line, c: Cutting, m: nat)
    requires RlcInv(a.r) && Step(a, op, b) && Remaining(a.r.segments, c, m) && m < c.n
    ensures var out := if op.Get? then Dequeue(a.r, op.budget, op.x, 0).1 else None;
            if out.Some? then Carries(out.value, c, m) && Remaining(b.r.segments, c, m + 1)
            else Remaining(b.r.segments, c, m)
  {
    if op.Get? {
      NextCarries(a.r, op.budget, op.x, c, m);
    }
  }

  lemma {:induction false} RunRemains(lines: seq<Line>, ops: seq<Op>, bufferSize: nat, poll: bool, k: nat, j: nat,
                                      c: Cutting)
    requires UsableSize(bufferSize) && IsRun(lines, ops, bufferSize, poll) && AllCounted(lines)
    requires k < j <= |ops| && CutsAt(lines, ops, k, c) && OutCount(lines, ops, k, j) <= c.n
    ensures OutCount(lines, ops, k, j) >= 1 && Remaining(lines[j].r.segments, c, OutCount(lines, ops, k, j))
  {
    var i := j - 1;
    if i == k {
      StepAt(lines, ops, bufferSize, poll, k);
      FirstRemains(lines, ops, k, c);
    } else {
      var m := OutCount(lines, ops, k, i);
      OutCountGrows(lines, ops, k, j, m);
      RunRemains(lines, ops, bufferSize, poll, k, i, c);
      NextRemains(lines, ops, bufferSize, poll, k, i, j, c, m, OutCount(lines, ops, k, j));
    }
  }

  lemma StepAt(lines: seq<Line>, ops: seq<Op>, bufferSize: nat, poll: bool, i: nat)
    requires UsableSize(bufferSize) && IsRun(lines, ops, bufferSize, poll) && i < |ops|
    ensures |lines| == |ops| + 1 && Step(lines[i], ops[i], lines[i + 1]) && RlcInv(lines[i].r)
  {
    RunKeeps(lines, ops, bufferSize, poll, i);
  }

  lemma NextRemains(lines: seq<Line>, ops: seq<Op>, bufferSize: nat, poll: bool, k: nat, i: nat, j: nat,
                    c: Cutting, m: nat, n: nat)
    requires UsableSize(bufferSize) && IsRun(lines, ops, bufferSize, poll) && AllCounted(lines)
    requires k <= i < j <= |ops| && j == i + 1
    requires m == OutCount(lines, ops, k, i) && Remaining(lines[i].r.segments, c, m)
    requires n == OutCount(lines, ops, k, j) <= c.n
    ensures Remaining(lines[j].r.segments, c, n)
  {
    var out := OutAt(lines, ops, i);
    StepAt(lines, ops, bufferSize, poll, i);
    OutCountStep(lines, ops, k, i, j, m, out);
    OneStepRemains(lines[i], ops[i], lines[j], c, m, out);
  }

  lemma FirstRemains(lines: seq<Line>, ops: seq<Op>, k: nat, c: Cutting)
    requires k < |ops| < |lines| && AllCounted(lines) && CutsAt(lines, ops, k, c)
    requires Step(lines[k], ops[k], lines[k + 1])
    ensures OutCount(lines, ops, k, k + 1) == 1 && Remaining(lines[k + 1].r.segments, c, 1)
  {
    CutCarriesFirst(lines[k].r, ops[k].budget, ops[k].x, c);
    assert OutCount(lines, ops, k, k) == 0;
  }

  lemma OneStepRemains(a: Line, op: Op, b: Line, c: Cutting, m: nat, out: Option<Pdu>)
    requires RlcInv(a.r) && Step(a, op, b) && Remaining(a.r.segments, c, m)
    requires out == if op.Get? then Dequeue(a.r, op.budget, op.x, 0).1 else None
    requires m + (if out.Some? then 1 else 0) <= c.n
    ensures Remaining(b.r.segments, c, m + if out.Some? then 1 else 0)
  {
    if m < c.n {
      StepRemains(a, op, b, c, m);
    } else {
      DrainedStays(a, op, b, c);
    }
  }

  /** Once all pieces are out, what hands out nothing leaves the segment buffer empty. */
  lemma DrainedStays(a: Line, op: Op, b: Line, c: Cutting)
    requires RlcInv(a.r) && Step(a, op, b) && Remaining(a.r.segments, c, c.n)
    requires op.Get? ==> Dequeue(a.r, op.budget, op.x, 0).1.None?
    ensures Remaining(b.r.segments, c, c.n)
  {
    if op.Get? {
      NullChangesNothing(a.r, op.budget, op.x, 0, b.r);
    }
  }

  /** Of a packet that is cut whole, the `m`-th PDU handed out from then on is piece `m`. */
  lemma PiecesGoOutInOrder(lines: seq<Line>, ops: seq<Op>, bufferSize: nat, poll: bool, k: nat, j: nat, c: Cutting)
    requires UsableSize(bufferSize) && IsRun(lines, ops, bufferSize, poll) && AllCounted(lines)
    requires k <= j < |ops| && CutsAt(lines, ops, k, c)
    requires OutAt(lines, ops, j).Some? && OutCount(lines, ops, k, j) < c.n
    ensures Carries(OutAt(lines, ops, j).value, c, OutCount(lines, ops, k, j))
  {
    if k == j {
      CutCarriesFirst(lines[k].r, ops[k].budget, ops[k].x, c);
    } else {
      RunRemains(lines, ops, bufferSize, poll, k, j, c);
      RunKeeps(lines, ops, bufferSize, poll, j);
      NextCarries(lines[j].r, ops[j].budget, ops[j].x, c, OutCount(lines, ops, k, j));
    }
  }

  // ---------------------------------------------------------------------------------------------
  // What the receiver makes of them
  // ---------------------------------------------------------------------------------------------

  function PollsOf(pdus: seq<Pdu>): (polls: seq<bool>)
    ensures |polls| == |pdus| && forall i :: 0 <= i < |pdus| ==> polls[i] == pdus[i].poll
  {
    if pdus == [] then [] else PollsOf(pdus[..|pdus| - 1]) + [pdus[|pdus| - 1].poll]
  }

  function BytesOf(pdus: seq<Pdu>): (wire: seq<seq<Byte>>)
    ensures |wire| == |pdus| && forall i :: 0 <= i < |pdus| ==> wire[i] == pdus[i].bytes
  {
    if pdus == [] then [] else BytesOf(pdus[..|pdus| - 1]) + [pdus[|pdus| - 1].bytes]
  }

  /** The packet, its cut and its PDUs together. */
  function TransferOf(c: Cutting, pdus: seq<Pdu>): Transfer
    requires c.max > 0 && c.n <= Total(|c.p.data|, c.max)
  {
    Transfer(c.p.data, c.max, c.p.id, CutUp(c.p.data, c.max, c.p.id, c.n), PollsOf(pdus), c.p.queueId, c.p.priority,
             BytesOf(pdus))
  }

  ghost predicate CarryAll(pdus: seq<Pdu>, c: Cutting) {
    |pdus| == c.n && forall m :: 0 <= m < c.n ==> Carries(pdus[m], c, m)
  }

  lemma CarriedBytes(pdu: Pdu, c: Cutting, m: nat)
    requires Carries(pdu, c, m)
    ensures c.max > 0 && m * c.max <= |c.p.data|
    ensures pdu.bytes
         == Serialize(Stamp(SegmentAt(c.p.data, c.max, c.p.id, c.n, m), pdu.poll, c.p.queueId, c.p.priority))
  {
  }

  lemma CarriedAreWhole(pdus: seq<Pdu>, c: Cutting)
    requires CarryAll(pdus, c) && 0 < c.max < U16 && c.n == Count(|c.p.data|, c.max) == Total(|c.p.data|, c.max)
    requires 0 < |c.p.data| < U32 && c.p.id < SEQ_NUM_MASK
    ensures Reassembly.Whole(TransferOf(c, pdus))
  {
    var t := TransferOf(c, pdus);
    forall m | 0 <= m < c.n
      ensures t.wire[m] == Serialize(Stamp(t.segments[m], t.polls[m], t.queueId, t.priority))
    {
      CarriedBytes(pdus[m], c, m);
      assert t.segments[m] == SegmentAt(c.p.data, c.max, c.p.id, Total(|c.p.data|, c.max), m);
    }
  }

  lemma CutFigures(r: Rlc, budget: nat, c: Cutting)
    requires CutBy(r, budget, c)
    ensures 0 < c.max && c.n == Count(|c.p.data|, c.max) == Total(|c.p.data|, c.max)
    ensures 0 < |c.p.data| && c.p.id < SEQ_NUM_MASK
  {
    AllAdmitted(r, budget);
    assert r.packets[0] in r.packets;
  }

  /** `pdus` are the first PDUs handed out from step `k` on, at `steps`. */
  ghost predicate FirstPdus(lines: seq<Line>, ops: seq<Op>, k: nat, steps: seq<nat>, pdus: seq<Pdu>)
    requires k < |ops| < |lines| && AllCounted(lines)
  {
    && |steps| == |pdus|
    && forall m :: 0 <= m < |steps| ==>
         k <= steps[m] < |ops| && OutAt(lines, ops, steps[m]) == Some(pdus[m]) && OutCount(lines, ops, k, steps[m]) == m
  }

  /** The PDUs of a packet that is cut whole are the wire of a transfer of just that packet. */
  lemma PdusAreTransfer(lines: seq<Line>, ops: seq<Op>, bufferSize: nat, poll: bool, k: nat, c: Cutting,
                        steps: seq<nat>, pdus: seq<Pdu>)
    requires UsableSize(bufferSize) && IsRun(lines, ops, bufferSize, poll) && AllCounted(lines)
    requires k < |ops| && CutsAt(lines, ops, k, c) && c.max < U16 && |c.p.data| < U32
    requires FirstPdus(lines, ops, k, steps, pdus) && |pdus| == c.n
    ensures c.max > 0 && c.n <= Total(|c.p.data|, c.max) && Reassembly.Whole(TransferOf(c, pdus))
  {
    CutFigures(lines[k].r, ops[k].budget, c);
    forall m | 0 <= m < c.n ensures Carries(pdus[m], c, m) {
      PiecesGoOutInOrder(lines, ops, bufferSize, poll, k, steps[m], c);
    }
    CarriedAreWhole(pdus, c);
  }

  // ---------------------------------------------------------------------------------------------
  // Arrival in order
  // ---------------------------------------------------------------------------------------------

  function Segs(n: nat): (acts: seq<Rounds.Act>)
    ensures |acts| == n && forall i :: 0 <= i < n ==> acts[i] == Rounds.Seg(i)
  {
    if n == 0 then [] else Segs(n - 1) + [Rounds.Seg(n - 1)]
  }

  lemma {:induction false} HaveSegs(n: nat, m: nat)
    requires m < n
    ensures Rounds.Have(Segs(m), n) == Rounds.All(m)
  {
    if m > 0 {
      HaveSegs(n, m - 1);
      assert Segs(m)[..m - 1] == Segs(m - 1);
      assert Rounds.All(m - 1) + {m - 1} == Rounds.All(m);
      assert n - 1 in Rounds.All(n) && n - 1 !in Rounds.All(m);
    }
  }

  predicate Brings(e: Reassembly.Event, bytes: seq<Byte>) {
    e.Arrive? && e.bytes == bytes
  }

  /** All PDUs of the transfer arrive one after the other from event `from` on. */
  ghost predicate ArrivesAt(es: seq<Reassembly.Event>, t: Transfer, from: nat) {
    && from + |t.wire| <= |es|
    && forall m :: 0 <= m < |t.wire| ==> Brings(es[from + m], t.wire[m])
  }

  lemma ArrivesHere(es: seq<Reassembly.Event>, t: Transfer, from: nat, j: nat, k: nat)
    requires ArrivesAt(es, t, from) && j < |t.wire| && k == from + j
    ensures es[k].Arrive? && es[k].bytes == t.wire[j]
  {
    assert Brings(es[from + j], t.wire[j]);
  }

  lemma OnlyArrivals(es: seq<Reassembly.Event>, t: Transfer, from: nat, j: nat, k: nat)
    requires ArrivesAt(es, t, from) && j <= |t.wire| && k == from + j
    ensures Reassembly.Only(es, t, from, k)
  {
    forall i | from <= i < k && Reassembly.Concerns(es[i], t) ensures es[i].bytes in t.wire {
      ArrivesHere(es, t, from, i - from, i);
    }
  }

  /** Before piece `j` arrives, as event `k`, the context holds the `j` pieces before it. */
  lemma BeforeArrival(timeout: nat, css: seq<Receiver.Contexts>, es: seq<Reassembly.Event>, t: Transfer,
                      from: nat, j: nat, k: nat)
    requires Reassembly.IsRun(timeout, css, es) && Reassembly.Whole(t) && ArrivesAt(es, t, from)
    requires j < |t.wire| && k == from + j && t.id !in css[from]
    requires Reassembly.Acts(timeout, css, es, t, from, k) == Segs(j)
    ensures Reassembly.Holds(css[k], t, Rounds.All(j))
    ensures Rounds.All(j) < Rounds.All(|t.wire|)
  {
    OnlyArrivals(es, t, from, j, k);
    Reassembly.RunHolds(timeout, css, es, t, from, k, Segs(j));
    HaveSegs(|t.wire|, j);
  }

  /** Piece `j` arrives. */
  lemma ArrivalIsSeg(timeout: nat, cs: Receiver.Contexts, e: Reassembly.Event, t: Transfer, j: nat)
    requires Reassembly.Whole(t) && j < |t.wire| && e.Arrive? && e.bytes == t.wire[j] && Reassembly.Sound(e)
    requires Reassembly.Holds(cs, t, Rounds.All(j)) && Rounds.All(j) < Rounds.All(|t.wire|)
    requires !Receiver.Refused(cs, t.id)
    ensures Reassembly.ActOf(timeout, cs, e, t) == [Rounds.Seg(j)]
    ensures Reassembly.Output(cs, e) == if j == |t.wire| - 1 then Some(t.packet) else None
  {
    Reassembly.ArrivalStep(timeout, cs, e, t, Rounds.All(j), j);
    var n := |t.wire|;
    assert Rounds.All(j) + {j} == Rounds.All(j + 1);
    assert j + 1 < n ==> n - 1 in Rounds.All(n) && n - 1 !in Rounds.All(j + 1);
  }

  lemma OneArrival(timeout: nat, css: seq<Receiver.Contexts>, es: seq<Reassembly.Event>, t: Transfer,
                   from: nat, j: nat, k: nat)
    requires Reassembly.IsRun(timeout, css, es) && Reassembly.Whole(t) && ArrivesAt(es, t, from)
    requires j < |t.wire| && k == from + j && t.id !in css[from] && |css[from]| < Receiver.MAX_CONTEXTS
    requires Reassembly.Acts(timeout, css, es, t, from, k) == Segs(j)
    ensures Reassembly.Sound(es[k])
    ensures Reassembly.ActOf(timeout, css[k], es[k], t) == [Rounds.Seg(j)]
    ensures Reassembly.Output(css[k], es[k]) == if j == |t.wire| - 1 then Some(t.packet) else None
  {
    ArrivesHere(es, t, from, j, k);
    BeforeArrival(timeout, css, es, t, from, j, k);
    NotRefused(css, t, from, j, k);
    assert Reassembly.Sound(es[k]);
    ArrivalIsSeg(timeout, css[k], es[k], t, j);
  }

  lemma ActsThen(timeout: nat, css: seq<Receiver.Contexts>, es: seq<Reassembly.Event>, t: Transfer,
                 from: nat, j: nat, k: nat)
    requires from <= k < |es| < |css| && Reassembly.Acts(timeout, css, es, t, from, k) == Segs(j)
    requires Reassembly.ActOf(timeout, css[k], es[k], t) == [Rounds.Seg(j)]
    ensures Reassembly.Acts(timeout, css, es, t, from, k + 1) == Segs(j + 1)
  {
    Reassembly.ActsNext(timeout, css, es, t, from, k);
  }

  lemma {:induction false} ArrivalActs(timeout: nat, css: seq<Receiver.Contexts>, es: seq<Reassembly.Event>,
                                       t: Transfer, from: nat, m: nat, to: nat)
    requires Reassembly.IsRun(timeout, css, es) && Reassembly.Whole(t) && ArrivesAt(es, t, from)
    requires m <= |t.wire| && to == from + m && t.id !in css[from] && |css[from]| < Receiver.MAX_CONTEXTS
    ensures Reassembly.Acts(timeout, css, es, t, from, to) == Segs(m)
  {
    if m > 0 {
      var j, k := m - 1, to - 1;
      assert Reassembly.Acts(timeout, css, es, t, from, k) == Segs(j) by {
        ArrivalActs(timeout, css, es, t, from, j, k);
      }
      assert Reassembly.ActOf(timeout, css[k], es[k], t) == [Rounds.Seg(j)] by {
        OneArrival(timeout, css, es, t, from, j, k);
      }
      ActsThen(timeout, css, es, t, from, j, k);
      assert k + 1 == to && j + 1 == m;
    }
  }

  /** The first piece finds room, and the later ones find the context. */
  lemma NotRefused(css: seq<Receiver.Contexts>, t: Transfer, from: nat, j: nat, k: nat)
    requires k == from + j < |css| && t.max > 0 && Reassembly.Holds(css[k], t, Rounds.All(j))
    requires t.id !in css[from] && |css[from]| < Receiver.MAX_CONTEXTS
    ensures !Receiver.Refused(css[k], t.id)
  {
    if j > 0 {
      assert 0 in Rounds.All(j);
    }
  }

  /** The pieces of a transfer that arrive in order are handed on as the packet, with the last of them. */
  lemma InOrderRebuilds(timeout: nat, css: seq<Receiver.Contexts>, es: seq<Reassembly.Event>, t: Transfer,
                        from: nat, m: nat)
    requires Reassembly.IsRun(timeout, css, es) && Reassembly.Whole(t) && ArrivesAt(es, t, from) && m < |t.wire|
    requires t.id !in css[from] && |css[from]| < Receiver.MAX_CONTEXTS
    ensures Reassembly.Output(css[from + m], es[from + m]) == if m == |t.wire| - 1 then Some(t.packet) else None
  {
    var k := from + m;
    assert Reassembly.Acts(timeout, css, es, t, from, k) == Segs(m) by {
      ArrivalActs(timeout, css, es, t, from, m, k);
    }
    OneArrival(timeout, css, es, t, from, m, k);
  }

  /** The PDUs reach, in their order, a receiver with room that has nothing open under the packet's id. */
  ghost predicate Fed(timeout: nat, css: seq<Receiver.Contexts>, es: seq<Reassembly.Event>, from: nat,
                      id: nat, pdus: seq<Pdu>)
  {
    && Reassembly.IsRun(timeout, css, es) && from + |pdus| <= |es|
    && (forall q :: 0 <= q < |pdus| ==> Brings(es[from + q], pdus[q].bytes))
    && id !in css[from] && |css[from]| < Receiver.MAX_CONTEXTS
  }

  lemma FedArrives(timeout: nat, css: seq<Receiver.Contexts>, es: seq<Reassembly.Event>, from: nat,
                   id: nat, pdus: seq<Pdu>, t: Transfer)
    requires Fed(timeout, css, es, from, id, pdus) && t.wire == BytesOf(pdus) && t.id == id
    ensures ArrivesAt(es, t, from)
  {
    forall m | 0 <= m < |t.wire| ensures Brings(es[from + m], t.wire[m]) {
      assert t.wire[m] == pdus[m].bytes;
    }
  }

  /** What the receiver hands on at the arrival `m` places after `from`. */
  function HandedOn(css: seq<Receiver.Contexts>, es: seq<Reassembly.Event>, i: nat): Option<seq<Byte>>
    requires i < |es| <= |css| && Reassembly.Sound(es[i])
  {
    Reassembly.Output(css[i], es[i])
  }

  lemma TransferArrives(timeout: nat, css: seq<Receiver.Contexts>, es: seq<Reassembly.Event>, from: nat,
                        id: nat, pdus: seq<Pdu>, t: Transfer, m: nat)
    requires Fed(timeout, css, es, from, id, pdus) && t.wire == BytesOf(pdus) && t.id == id
    requires Reassembly.Whole(t) && m < |pdus|
    ensures HandedOn(css, es, from + m) == if m == |pdus| - 1 then Some(t.packet) else None
  {
    FedArrives(timeout, css, es, from, id, pdus, t);
    InOrderRebuilds(timeout, css, es, t, from, m);
  }

  /**
   From the sender's cut to the receiver's hand-over: the PDUs of a packet that is cut whole, fed to a receiver in the
   order in which they were handed out, give back the packet with the last of them, and nothing before.
  */
  lemma CutPacketArrives(lines: seq<Line>, ops: seq<Op>, bufferSize: nat, poll: bool, k: nat, c: Cutting,
                         steps: seq<nat>, pdus: seq<Pdu>,
                         timeout: nat, css: seq<Receiver.Contexts>, es: seq<Reassembly.Event>, from: nat, m: nat)
    requires UsableSize(bufferSize) && IsRun(lines, ops, bufferSize, poll) && AllCounted(lines)
    requires k < |ops| && CutsAt(lines, ops, k, c) && c.max < U16 && |c.p.data| < U32
    requires FirstPdus(lines, ops, k, steps, pdus) && |pdus| == c.n
    requires Fed(timeout, css, es, from, c.p.id, pdus) && m < c.n
    ensures HandedOn(css, es, from + m) == if m == c.n - 1 then Some(c.p.data) else None
  {
    PdusAreTransfer(lines, ops, bufferSize, poll, k, c, steps, pdus);
    TransferArrives(timeout, css, es, from, c.p.id, pdus, TransferOf(c, pdus), m);
  }

  lemma WholeData(s: Segment, p: Packet)
    requires IsWhole(s, p) && p.id < SEQ_NUM_MASK
    ensures var t := Deserialize(Serialize(s));
            t.header.total == 1 && t.header.number == 0 && (t.data == p.data <==> |p.data| < U16)
  {
    var h := s.header.(offset := s.header.offset % U32);
    LowBytes(s.header.offset);
    assert Encode(s.header) == Encode(h);
    HeaderRoundTrip(h, s.data);
    if |p.data| < U16 {
      WholeBytes(s);
    }
  }

  /** A packet that goes out whole is handed on at once, as it was if and only if its size fits 16 bits. */
  lemma WholePacketArrives(r: Rlc, budget: nat, x: Input, cs: Receiver.Contexts, now: int)
    requires RlcInv(r) && Choose(r, budget).Whole?
    ensures Dequeue(r, budget, x, 0).1.Some?
    ensures var bytes := Dequeue(r, budget, x, 0).1.value.bytes;
            && Receiver.Readable(bytes) && Receiver.Receive(cs, bytes, now).0 == cs
            && (Receiver.Receive(cs, bytes, now).1 == Some(r.packets[0].data) <==> |r.packets[0].data| < U16)
  {
    var r0 := CheckPollTimer(r, x.expired(0));
    TimerKeepsChoice(r, x.expired(0), budget);
    DequeueUnfolds(r, r0, budget, x, 0);
    var p := r.packets[0];
    assert p in r.packets;
    DropCounted(r0);
    var s := WholePacket(p, r0.pollPending, x.junk);
    assert Dequeue(r, budget, x, 0).1 == Some(Pdu(Serialize(s), r0.pollPending));
    WholeData(s, p);
    Reassembly.FirstByte(p.id);
    assert Serialize(s)[0] == Encode(s.header)[0] == BigEndian(p.id, 4)[0];
  }
}
