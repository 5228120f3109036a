/**
 The PDCP sender: it numbers each packet, picks a path, and forwards the packet together with copies for
 duplication, probing and re-injection. `Sender` is the state as a value; `Log` and `After` specify the class.
*/
module PdcpSender {
  import opened Options
  import opened Bytes
  import opened PdcpHeader
  import opened Multilink

  /** `MAX_PATHS`. */
  const MAX_PATHS := 8

  /** One call of the forwarding callback, its answer, and whether success is added to the path's bytes. */
  datatype Forward = Forward(path: nat, bytes: seq<Byte>, ok: bool, counted: bool)

  /** What the environment fixes: the number of links, two environment variables, and the callback. */
  datatype Config = Config(links: nat, hardcodePath: int, probePeriod: nat, hasCallback: bool)
  {
    predicate Valid() {
      1 <= links < 256
    }
  }

  datatype Sender = Sender(
    nextSequence: nat, activePath: nat, multilink: Option<Table>,
    duplicating: bool, duplicationPaths: seq<nat>, burst: nat, altPath: nat, pathBytes: seq<nat>)

  /** What one packet brings along: its queue, the clock, the random draw, and the callback's answers in order. */
  datatype Input = Input(queue: Byte, now: nat, draw: real, ok: nat -> bool)

  /** The 32-bit number a packet gets. */
  function Number(st: Sender): nat {
    st.nextSequence % U32
  }

  /** `PDCP_SEQ_LIMIT`. */
  const SEQUENCE_LIMIT := 0xffff_ffff

  /** The branch for a new epoch tests for a number beyond the limit: no number is, and the one after it is 0. */
  lemma WrapBranchIsNeverTaken(st: Sender)
    ensures Number(st) <= SEQUENCE_LIMIT
    ensures Number(st) == SEQUENCE_LIMIT ==> Number(st.(nextSequence := st.nextSequence + 1)) == 0
  {
  }

  function Target(c: Config, st: Sender, draw: real): (path: nat)
    requires c.Valid()
    ensures path < c.links
  {
    var wanted :=
      if 0 <= c.hardcodePath < c.links then c.hardcodePath
      else match st.multilink
        case Some(t) =>
          if t.paths != [] && |t.cum| == |t.paths| then t.paths[PickFrom(t.cum, draw, 0)] else st.activePath
        case None => st.activePath;
    if wanted >= c.links then 0 else wanted
  }

  /** The epoch stays 0: the wrap branch compares a 32-bit number with 2^32 - 1 and is never taken. */
  function Encapsulated(payload: seq<Byte>, n: nat, pad: Byte, now: nat): seq<Byte> {
    Encode(Header(0, 0, pad, n, now)) + payload
  }

  function Others(paths: seq<nat>, target: nat, links: nat): (res: seq<nat>)
    ensures forall p :: p in res <==> p in paths && p != target && p < links
  {
    if paths == [] then []
    else
      var k := |paths| - 1;
      Others(paths[..k], target, links) + (if paths[k] != target && paths[k] < links then [paths[k]] else [])
  }

  function UpTo(n: nat): (s: seq<nat>)
    ensures |s| == n && forall i :: 0 <= i < n ==> s[i] == i
  {
    if n == 0 then [] else UpTo(n - 1) + [n - 1]
  }

  /** Paths that get a copy before the packet itself goes out. */
  function CopyPaths(c: Config, st: Sender, target: nat): seq<nat> {
    if !c.hasCallback then []
    else if st.duplicating then Others(st.duplicationPaths, target, c.links)
    else if c.probePeriod > 0 && Number(st) % c.probePeriod == 0 then Others(UpTo(c.links), target, c.links)
    else []
  }

  function Calls(paths: seq<nat>, bytes: seq<Byte>, counted: bool, ok: nat -> bool): (log: seq<Forward>)
    ensures |log| == |paths|
    ensures forall i :: 0 <= i < |log| ==> log[i] == Forward(paths[i], bytes, ok(i), counted)
  {
    if paths == [] then []
    else
      var k := |paths| - 1;
      Calls(paths[..k], bytes, counted, ok) + [Forward(paths[k], bytes, ok(k), counted)]
  }

  predicate Reinjects(c: Config, st: Sender, target: nat) {
    st.burst > 0 && c.hasCallback && st.altPath < c.links && st.altPath != target
  }

  /** The re-injected copy, in the queue of highest priority. */
  function BurstCalls(c: Config, st: Sender, target: nat, payload: seq<Byte>, x: Input, from: nat): seq<Forward> {
    if Reinjects(c, st, target) then
      [Forward(st.altPath, Encapsulated(payload, Number(st), 3, x.now), x.ok(from), true)]
    else []
  }

  /** Every call of the forwarding callback for one packet, in order. */
  function Log(c: Config, st: Sender, payload: seq<Byte>, x: Input): seq<Forward>
    requires c.Valid()
  {
    if HEADER_SIZE + |payload| > MAX_PACKET_SIZE then []
    else
      var target := Target(c, st, x.draw);
      var bytes := Encapsulated(payload, Number(st), x.queue, x.now);
      var copies := Calls(CopyPaths(c, st, target), bytes, st.duplicating, x.ok);
      var burst := BurstCalls(c, st, target, payload, x, |copies|);
      var main := if c.hasCallback then [Forward(target, bytes, x.ok(|copies + burst|), false)] else [];
      copies + burst + main
  }

  /** Bytes of the counted, successful calls for path `p`. */
  function CountedBytes(log: seq<Forward>, p: nat): nat {
    if log == [] then 0
    else
      var f := log[|log| - 1];
      CountedBytes(log[..|log| - 1], p) + (if f.path == p && f.ok && f.counted then |f.bytes| else 0)
  }

  function BurstLeft(burst: nat, calls: seq<Forward>): nat {
    if burst > 0 && calls != [] && calls[0].ok then burst - 1 else burst
  }

  /** The chosen path is charged at once; the other counted calls are charged on success. */
  function BytesAfter(pathBytes: seq<nat>, target: nat, total: nat, log: seq<Forward>): (res: seq<nat>)
    ensures |res| == |pathBytes|
  {
    seq(|pathBytes|, p requires 0 <= p < |pathBytes| =>
      pathBytes[p] + (if p == target && p < MAX_PATHS then total else 0) + CountedBytes(log, p))
  }

  function After(c: Config, st: Sender, payload: seq<Byte>, x: Input): Sender
    requires c.Valid()
  {
    if HEADER_SIZE + |payload| > MAX_PACKET_SIZE then st
    else
      var target := Target(c, st, x.draw);
      var total := HEADER_SIZE + |payload|;
      var log := Log(c, st, payload, x);
      st.(nextSequence := st.nextSequence + 1,
          burst := BurstLeft(st.burst, BurstCalls(c, st, target, payload, x, |CopyPaths(c, st, target)|)),
          pathBytes := BytesAfter(st.pathBytes, target, total, log))
  }

  /** Each path's bytes went up by what the calls count for it. */
  ghost predicate Charged(before: seq<nat>, after: seq<nat>, log: seq<Forward>) {
    && |after| == |before|
    && forall p :: 0 <= p < |after| ==> after[p] == before[p] + CountedBytes(log, p)
  }

  ghost predicate ChargedTwice(before: seq<nat>, after: seq<nat>, first: seq<Forward>, second: seq<Forward>) {
    && |after| == |before|
    && forall p :: 0 <= p < |after| ==> after[p] == before[p] + CountedBytes(first, p) + CountedBytes(second, p)
  }

  lemma ChargedOne(before: seq<nat>, mid: seq<nat>, after: seq<nat>, log: seq<Forward>, f: Forward)
    requires Charged(before, mid, log)
    requires f.ok && f.counted ==> f.path < |mid| && after == mid[f.path := mid[f.path] + |f.bytes|]
    requires !(f.ok && f.counted) ==> after == mid
    ensures Charged(before, after, log + [f])
  {
    assert (log + [f])[..|log|] == log;
  }

  // ---------------------------------------------------------------------------------------------
  // The class
  // ---------------------------------------------------------------------------------------------

  class PdcpSender {
    const config: Config
    var nextSequence: nat
    var activePath: nat
    var multilink: Option<Table>
    var duplicating: bool
    var duplicationPaths: seq<nat>
    var burst: nat
    var altPath: nat
    var pathBytes: seq<nat>

    ghost predicate Valid()
      reads this
    {
      config.Valid() && |pathBytes| == config.links
    }

    ghost function State(): Sender
      reads this
    {
      Sender(nextSequence, activePath, multilink, duplicating, duplicationPaths, burst, altPath, pathBytes)
    }

    /** Forward a copy on each path, counting successful ones if asked to. */
    method ForwardCopies(paths: seq<nat>, bytes: seq<Byte>, counted: bool, ok: nat -> bool)
      returns (log: seq<Forward>)
      requires Valid() && forall p :: p in paths ==> p < config.links
      modifies this`pathBytes
      ensures Valid() && log == Calls(paths, bytes, counted, ok)
      ensures Charged(old(pathBytes), pathBytes, log)
    {
      log := [];
      for i := 0 to |paths|
        invariant |pathBytes| == config.links && Charged(old(pathBytes), pathBytes, log)
        invariant log == Calls(paths[..i], bytes, counted, ok)
      {
        assert paths[..i + 1][..i] == paths[..i];
        var success := ok(i);
        ghost var chargedBefore := pathBytes;
        if success && counted {
          assert paths[i] in paths;
          pathBytes := pathBytes[paths[i] := pathBytes[paths[i]] + |bytes|];
        }
        ChargedOne(old(pathBytes), chargedBefore, pathBytes, log, Forward(paths[i], bytes, success, counted));
        log := log + [Forward(paths[i], bytes, success, counted)];
      }
      assert paths[..|paths|] == paths;
    }

    /** Keep the paths other than the target that exist. */
    method SelectOthers(paths: seq<nat>, target: nat) returns (res: seq<nat>)
      ensures res == Others(paths, target, config.links)
    {
      res := [];
      for i := 0 to |paths|
        invariant res == Others(paths[..i], target, config.links)
      {
        assert paths[..i + 1][..i] == paths[..i];
        if paths[i] != target && paths[i] < config.links {
          res := res + [paths[i]];
        }
      }
      assert paths[..|paths|] == paths;
    }

    method PickTarget(draw: real) returns (target: nat)
      requires Valid()
      ensures target == Target(config, State(), draw)
    {
      if 0 <= config.hardcodePath < config.links {
        target := config.hardcodePath;
      } else if multilink.Some? && multilink.value.paths != []
                && |multilink.value.cum| == |multilink.value.paths| {
        var pick := Pick(multilink.value.cum, draw);
        target := multilink.value.paths[pick];
      } else {
        target := activePath;
      }
      if target >= config.links {
        target := 0;
      }
    }

    method ForwardBurst(ghost st: Sender, payload: seq<Byte>, n: nat, target: nat, x: Input, from: nat)
      returns (log: seq<Forward>)
      requires Valid() && n == Number(st)
      requires burst == st.burst && altPath == st.altPath
      modifies this`burst, this`pathBytes
      ensures Valid() && log == BurstCalls(config, st, target, payload, x, from)
      ensures burst == BurstLeft(st.burst, log)
      ensures Charged(old(pathBytes), pathBytes, log)
    {
      log := [];
      if burst > 0 && config.hasCallback && altPath < config.links && altPath != target {
        var hiCopy := Encapsulated(payload, n, 3, x.now);
        var ok := x.ok(from);
        ghost var call := Forward(altPath, hiCopy, ok, true);
        log := [Forward(altPath, hiCopy, ok, true)];
        assert log == BurstCalls(config, st, target, payload, x, from);
        if ok {
          pathBytes := pathBytes[altPath := pathBytes[altPath] + |hiCopy|];
          burst := burst - 1;
        }
        ChargedOne(old(pathBytes), old(pathBytes), pathBytes, [], call);
        assert [] + [call] == log;
      }
    }

    method ForwardCopiesOf(ghost st: Sender, bytes: seq<Byte>, n: nat, target: nat, x: Input)
      returns (log: seq<Forward>)
      requires Valid() && n == Number(st)
      requires duplicating == st.duplicating && duplicationPaths == st.duplicationPaths
      modifies this`pathBytes
      ensures Valid() && log == Calls(CopyPaths(config, st, target), bytes, st.duplicating, x.ok)
      ensures Charged(old(pathBytes), pathBytes, log)
    {
      var paths := [];
      if duplicating && config.hasCallback {
        paths := SelectOthers(duplicationPaths, target);
      } else if !duplicating && config.hasCallback && config.probePeriod > 0 && n % config.probePeriod == 0 {
        paths := SelectOthers(UpTo(config.links), target);
      }
      log := ForwardCopies(paths, bytes, duplicating, x.ok);
    }

    /** Duplicates or probes, and then the re-injected copy. */
    method ForwardExtras(ghost st: Sender, payload: seq<Byte>, bytes: seq<Byte>, n: nat, target: nat, x: Input)
      returns (log: seq<Forward>, ghost copies: seq<Forward>, ghost reinjected: seq<Forward>)
      requires Valid() && n == Number(st) && burst == st.burst && altPath == st.altPath
      requires duplicating == st.duplicating && duplicationPaths == st.duplicationPaths
      modifies this`burst, this`pathBytes
      ensures Valid() && log == copies + reinjected
      ensures copies == Calls(CopyPaths(config, st, target), bytes, st.duplicating, x.ok)
      ensures reinjected == BurstCalls(config, st, target, payload, x, |copies|)
      ensures burst == BurstLeft(st.burst, reinjected)
      ensures ChargedTwice(old(pathBytes), pathBytes, copies, reinjected)
    {
      var first := ForwardCopiesOf(st, bytes, n, target, x);
      var second := ForwardBurst(st, payload, n, target, x, |first|);
      copies, reinjected := first, second;
      log := first + second;
    }

    /** Returns 0 when the packet was too long or was forwarded, and the encapsulated length otherwise. */
    method ProcessPacket(payload: seq<Byte>, x: Input) returns (log: seq<Forward>, result: nat)
      requires Valid()
      modifies this`nextSequence, this`burst, this`pathBytes
      ensures Valid()
      ensures log == Log(config, old(State()), payload, x)
      ensures State() == After(config, old(State()), payload, x)
      ensures result == if HEADER_SIZE + |payload| > MAX_PACKET_SIZE || (log != [] && log[|log| - 1].ok) then 0
                        else HEADER_SIZE + |payload|
    {
      var total := HEADER_SIZE + |payload|;
      if total > MAX_PACKET_SIZE {
        return [], 0;
      }
      var n := nextSequence % U32;
      var target := PickTarget(x.draw);
      ghost var st := State();
      nextSequence := nextSequence + 1;
      var bytes := Encapsulated(payload, n, x.queue, x.now);
      if target < MAX_PATHS {
        pathBytes := pathBytes[target := pathBytes[target] + total];
      }
      ghost var charged, copies, reinjected := pathBytes, [], [];
      log, copies, reinjected := ForwardExtras(st, payload, bytes, n, target, x);
      result := total;
      ghost var main := [];
      if config.hasCallback {
        var ok := x.ok(|log|);
        main := [Forward(target, bytes, ok, false)];
        log := log + [Forward(target, bytes, ok, false)];
        if ok {
          result := 0;
        }
      } else {
        NoCallbackNoCalls(config, st, target, payload, x, |copies|);
      }
      ChargesAddUp(st.pathBytes, charged, pathBytes, target, total, copies, reinjected, main);
      LogParts(config, st, payload, x, copies, reinjected, main);
      AfterParts(config, st, State(), payload, x, copies);
    }
  }

  lemma ChargesAddUp(before: seq<nat>, charged: seq<nat>, after: seq<nat>, target: nat, total: nat,
                     copies: seq<Forward>, burst: seq<Forward>, main: seq<Forward>)
    requires |main| <= 1 && forall f :: f in main ==> !f.counted
    requires target < |before| == |charged| == |after|
    requires ChargedTwice(charged, after, copies, burst)
    requires charged == if target < MAX_PATHS then before[target := before[target] + total] else before
    ensures after == BytesAfter(before, target, total, copies + burst + main)
  {
    forall p: nat | p < |after|
      ensures CountedBytes(copies + burst + main, p) == CountedBytes(copies, p) + CountedBytes(burst, p)
    {
      CountedBytesParts(copies, burst, main, p);
    }
  }

  lemma LogParts(c: Config, st: Sender, payload: seq<Byte>, x: Input,
                 copies: seq<Forward>, burst: seq<Forward>, main: seq<Forward>)
    requires c.Valid() && HEADER_SIZE + |payload| <= MAX_PACKET_SIZE
    requires var target, bytes := Target(c, st, x.draw), Encapsulated(payload, Number(st), x.queue, x.now);
             && copies == Calls(CopyPaths(c, st, target), bytes, st.duplicating, x.ok)
             && burst == BurstCalls(c, st, target, payload, x, |copies|)
             && main == if c.hasCallback then [Forward(target, bytes, x.ok(|copies + burst|), false)] else []
    ensures copies + burst + main == Log(c, st, payload, x)
  {
  }

  lemma AfterParts(c: Config, st: Sender, st': Sender, payload: seq<Byte>, x: Input, copies: seq<Forward>)
    requires c.Valid() && HEADER_SIZE + |payload| <= MAX_PACKET_SIZE
    requires |copies| == |CopyPaths(c, st, Target(c, st, x.draw))|
    requires st'.nextSequence == st.nextSequence + 1
    requires st'.burst == BurstLeft(st.burst, BurstCalls(c, st, Target(c, st, x.draw), payload, x, |copies|))
    requires st'.pathBytes ==
             BytesAfter(st.pathBytes, Target(c, st, x.draw), HEADER_SIZE + |payload|, Log(c, st, payload, x))
    requires st'.activePath == st.activePath && st'.multilink == st.multilink && st'.altPath == st.altPath
    requires st'.duplicating == st.duplicating && st'.duplicationPaths == st.duplicationPaths
    ensures st' == After(c, st, payload, x)
  {
  }

  lemma NoCallbackNoCalls(c: Config, st: Sender, target: nat, payload: seq<Byte>, x: Input, from: nat)
    requires !c.hasCallback
    ensures CopyPaths(c, st, target) == [] && BurstCalls(c, st, target, payload, x, from) == []
  {
  }

  lemma {:induction false} CountedBytesAppend(a: seq<Forward>, b: seq<Forward>, p: nat)
    ensures CountedBytes(a + b, p) == CountedBytes(a, p) + CountedBytes(b, p)
  {
    if b == [] {
      assert a + b == a;
    } else {
      assert (a + b)[..|a + b| - 1] == a + b[..|b| - 1];
      CountedBytesAppend(a, b[..|b| - 1], p);
    }
  }

  /** The call for the packet itself is counted when the path is chosen, whatever the callback answers. */
  lemma CountedBytesParts(copies: seq<Forward>, burst: seq<Forward>, main: seq<Forward>, p: nat)
    requires |main| <= 1 && forall f :: f in main ==> !f.counted
    ensures CountedBytes(copies + burst + main, p) == CountedBytes(copies, p) + CountedBytes(burst, p)
  {
    CountedBytesAppend(copies, burst, p);
    CountedBytesAppend(copies + burst, main, p);
    if main != [] {
      assert main[..0] == [];
    }
  }

  // ---------------------------------------------------------------------------------------------
  // What the copies are
  // ---------------------------------------------------------------------------------------------

  predicate Carries(bytes: seq<Byte>, n: nat, payload: seq<Byte>) {
    && |bytes| >= HEADER_SIZE
    && Decode(bytes).seqNo == n && Decode(bytes).epoch == 0
    && bytes[HEADER_SIZE..] == payload
  }

  lemma EncapsulatedCarries(payload: seq<Byte>, n: nat, pad: Byte, now: nat)
    requires n < U32 && now < U64
    ensures Carries(Encapsulated(payload, n, pad, now), n, payload)
  {
    HeaderRoundTrip(Header(0, 0, pad, n, now), payload);
  }

  /**
   Whatever the mode, each call forwards the packet under its own number; every path exists, and the packet
   itself goes last and is the only call for the chosen path.
  */
  lemma EveryCallCarriesThePacket(c: Config, st: Sender, payload: seq<Byte>, x: Input, k: nat)
    requires c.Valid() && x.now < U64
    requires k < |Log(c, st, payload, x)|
    ensures var log := Log(c, st, payload, x);
            && Carries(log[k].bytes, Number(st), payload)
            && log[k].path < c.links
            && (log[k].path == Target(c, st, x.draw) <==> k == |log| - 1)
  {
    EncapsulatedCarries(payload, Number(st), x.queue, x.now);
    EncapsulatedCarries(payload, Number(st), 3, x.now);
    var target := Target(c, st, x.draw);
    var paths := CopyPaths(c, st, target);
    if k < |paths| {
      assert paths[k] in paths;
    }
  }

  /** With duplication every listed path gets a copy; when probing, every link does. */
  lemma CopiesReach(c: Config, st: Sender, payload: seq<Byte>, x: Input, p: nat)
    requires c.Valid() && c.hasCallback && HEADER_SIZE + |payload| <= MAX_PACKET_SIZE
    requires p < c.links && p != Target(c, st, x.draw)
    requires if st.duplicating then p in st.duplicationPaths
             else c.probePeriod > 0 && Number(st) % c.probePeriod == 0
    ensures exists k :: 0 <= k < |Log(c, st, payload, x)| && Log(c, st, payload, x)[k].path == p
  {
    var paths := CopyPaths(c, st, Target(c, st, x.draw));
    assert !st.duplicating ==> UpTo(c.links)[p] == p;
    assert p in paths;
    var k :| 0 <= k < |paths| && paths[k] == p;
    assert Log(c, st, payload, x)[k].path == p;
  }
}
