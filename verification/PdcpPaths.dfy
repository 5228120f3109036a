/** Which path a packet takes, and what the calls for it carry, said without the sender's own functions for them. */
module PdcpPaths {
  import opened Options
  import opened Bytes
  import opened PdcpHeader
  import opened Multilink
  import opened PdcpSender

  // ---------------------------------------------------------------------------------------------
  // Where the packet goes
  // ---------------------------------------------------------------------------------------------

  /** A path that does not exist becomes path 0. */
  function Existing(path: nat, links: nat): nat {
    if path < links then path else 0
  }

  /** The path of the last call, which carries the packet itself. */
  function SentOn(c: Config, st: Sender, payload: seq<Byte>, x: Input): nat
    requires c.Valid() && c.hasCallback && HEADER_SIZE + |payload| <= MAX_PACKET_SIZE
  {
    var log := Log(c, st, payload, x);
    log[|log| - 1].path
  }

  predicate Hardcoded(c: Config) {
    0 <= c.hardcodePath < c.links
  }

  predicate UsableTable(multilink: Option<Table>) {
    multilink.Some? && multilink.value.paths != [] && |multilink.value.cum| == |multilink.value.paths|
  }

  /** The environment's path goes before all others, and the active path is used only without a table. */
  lemma SentOnFixedPath(c: Config, st: Sender, payload: seq<Byte>, x: Input)
    requires c.Valid() && c.hasCallback && HEADER_SIZE + |payload| <= MAX_PACKET_SIZE
    ensures Hardcoded(c) ==> SentOn(c, st, payload, x) == c.hardcodePath
    ensures !Hardcoded(c) && !UsableTable(st.multilink) ==>
              SentOn(c, st, payload, x) == Existing(st.activePath, c.links)
  {
  }

  function Before(ratios: seq<real>, i: nat): real
    requires i <= |ratios|
  {
    Sum(ratios[..i])
  }

  predicate Within(low: real, draw: real, sum: real, high: real) {
    low < draw * sum <= high
  }

  /** The draw is within entry `i`'s part of the sum of all ratios; 0 belongs to the first entry. */
  predicate Draws(ratios: seq<real>, draw: real, i: nat)
    requires i < |ratios|
  {
    Within(Before(ratios, i), draw, Sum(ratios), Before(ratios, i + 1)) || (draw == 0.0 && i == 0)
  }

  lemma ShareBound(a: real, sum: real, draw: real)
    requires sum > 0.0
    ensures draw <= Share(a, sum) <==> draw * sum <= a
  {
    var q := Share(a, sum);
    assert q * sum == a;
    if draw <= q {
      ScaleBy(draw, q, sum);
    } else {
      ScaleStrictly(q, draw, sum);
    }
  }

  lemma ScaleBy(a: real, b: real, r: real)
    requires a <= b && r > 0.0
    ensures a * r <= b * r
  {
  }

  lemma ScaleStrictly(a: real, b: real, r: real)
    requires a < b && r > 0.0
    ensures a * r < b * r
  {
  }

  lemma {:induction false} SumNonNegative(ratios: seq<real>, i: nat)
    requires i <= |ratios| && forall k :: 0 <= k < |ratios| ==> ratios[k] >= 0.0
    ensures Before(ratios, i) >= 0.0
  {
    if i > 0 {
      SumNonNegative(ratios, i - 1);
      assert ratios[..i][..i - 1] == ratios[..i - 1];
    }
  }

  /** The ratios of a usable request. */
  ghost predicate RatiosOk(ratios: seq<real>) {
    ratios != [] && Sum(ratios) > 0.0 && forall k :: 0 <= k < |ratios| ==> ratios[k] >= 0.0
  }

  lemma WithinIff(low: real, draw: real, sum: real, high: real)
    requires sum > 0.0
    ensures Within(low, draw, sum, high) <==> Share(low, sum) < draw <= Share(high, sum)
  {
    ShareBound(low, sum, draw);
    ShareBound(high, sum, draw);
  }

  lemma NoShare(sum: real)
    requires sum > 0.0
    ensures Share(0.0, sum) == 0.0
  {
  }

  lemma LowIsShare(cum: seq<real>, ratios: seq<real>, i: nat, sum: real)
    requires sum > 0.0 && IsCdf(cum, ratios, sum) && i < |cum|
    ensures Low(cum, i) == Share(Before(ratios, i), sum) && cum[i] == Share(Before(ratios, i + 1), sum)
  {
    if i == 0 {
      assert ratios[..0] == [];
      NoShare(sum);
    }
  }

  lemma PositiveDraw(cum: seq<real>, ratios: seq<real>, draw: real, i: nat, sum: real)
    requires RatiosOk(ratios) && sum == Sum(ratios) && IsCdf(cum, ratios, sum)
    requires 0.0 < draw <= 1.0 && i < |cum|
    ensures PickFrom(cum, draw, 0) == i <==> Within(Before(ratios, i), draw, sum, Before(ratios, i + 1))
  {
    PicksExactlyItsShare(cum, ratios, draw, i);
    LowIsShare(cum, ratios, i, sum);
    WithinIff(Before(ratios, i), draw, sum, Before(ratios, i + 1));
  }

  lemma ZeroDraw(cum: seq<real>, ratios: seq<real>)
    requires RatiosOk(ratios) && IsCdf(cum, ratios, Sum(ratios))
    ensures PickFrom(cum, 0.0, 0) == 0
  {
    TableShape(cum, ratios);
    ShareMonotone(0.0, ratios[0], Sum(ratios));
  }

  lemma ZeroTimes(a: real, b: real)
    requires a == 0.0
    ensures a * b == 0.0
  {
  }

  lemma ZeroDraws(ratios: seq<real>, draw: real, i: nat)
    requires RatiosOk(ratios) && i < |ratios| && draw == 0.0
    ensures Draws(ratios, draw, i) <==> i == 0
  {
    var mark := draw * Sum(ratios);
    ZeroTimes(draw, Sum(ratios));
    assert mark == 0.0;
    SumNonNegative(ratios, i);
  }

  /** The table's pick is the entry whose part the draw falls into. */
  lemma PickIffDraws(cum: seq<real>, ratios: seq<real>, draw: real, i: nat)
    requires RatiosOk(ratios) && IsCdf(cum, ratios, Sum(ratios)) && 0.0 <= draw <= 1.0 && i < |cum|
    ensures PickFrom(cum, draw, 0) == i <==> Draws(ratios, draw, i)
  {
    if draw > 0.0 {
      var sum := Sum(ratios);
      PositiveDraw(cum, ratios, draw, i, sum);
    } else {
      ZeroDraw(cum, ratios);
      ZeroDraws(ratios, draw, i);
    }
  }

  lemma SentOnPick(c: Config, st: Sender, payload: seq<Byte>, x: Input)
    requires c.Valid() && c.hasCallback && HEADER_SIZE + |payload| <= MAX_PACKET_SIZE
    requires !Hardcoded(c) && UsableTable(st.multilink)
    ensures var t := st.multilink.value;
            SentOn(c, st, payload, x) == Existing(t.paths[PickFrom(t.cum, x.draw, 0)], c.links)
  {
  }

  lemma PartLength(ratios: seq<real>, i: nat)
    requires i < |ratios|
    ensures Before(ratios, i + 1) - Before(ratios, i) == ratios[i]
  {
    assert ratios[..i + 1][..i] == ratios[..i];
  }

  /**
   With a table made of `ratios`, the packet goes on path `path` if and only if that is the path of an entry whose part
   of the sum the draw falls into; the parts are as long as the ratios, and the draw falls into exactly one of them.
  */
  lemma SentByShare(c: Config, st: Sender, payload: seq<Byte>, x: Input, ratios: seq<real>, path: nat)
    requires c.Valid() && c.hasCallback && HEADER_SIZE + |payload| <= MAX_PACKET_SIZE
    requires !Hardcoded(c) && UsableTable(st.multilink) && 0.0 <= x.draw <= 1.0
    requires RatiosOk(ratios) && IsCdf(st.multilink.value.cum, ratios, Sum(ratios))
    ensures var paths := st.multilink.value.paths;
            SentOn(c, st, payload, x) == path <==>
              exists i :: 0 <= i < |ratios| && Draws(ratios, x.draw, i) && Existing(paths[i], c.links) == path
    ensures exists i :: 0 <= i < |ratios| && Draws(ratios, x.draw, i)
    ensures forall i, j :: 0 <= i < |ratios| && 0 <= j < |ratios| ==>
              Draws(ratios, x.draw, i) && Draws(ratios, x.draw, j) ==> i == j
    ensures forall i :: 0 <= i < |ratios| ==> Before(ratios, i + 1) - Before(ratios, i) == ratios[i]
  {
    var t := st.multilink.value;
    var p := PickFrom(t.cum, x.draw, 0);
    forall i | 0 <= i < |ratios| ensures p == i <==> Draws(ratios, x.draw, i) {
      PickIffDraws(t.cum, ratios, x.draw, i);
    }
    assert Draws(ratios, x.draw, p);
    SentOnPick(c, st, payload, x);
    forall i | 0 <= i < |ratios| ensures Before(ratios, i + 1) - Before(ratios, i) == ratios[i] {
      PartLength(ratios, i);
    }
  }

  // ---------------------------------------------------------------------------------------------
  // The header and the re-injected copy
  // ---------------------------------------------------------------------------------------------

  /** The call before the last one is the re-injected copy. */
  predicate IsReinjection(c: Config, st: Sender, payload: seq<Byte>, x: Input, k: nat)
    requires c.Valid()
  {
    k + 2 == |Log(c, st, payload, x)| && Reinjects(c, st, Target(c, st, x.draw))
  }

  /** Every call's header has epoch 0, the number, the clock and the queue, or queue 3 in the re-injected copy. */
  lemma HeadersOfCalls(c: Config, st: Sender, payload: seq<Byte>, x: Input, k: nat)
    requires c.Valid() && x.now < U64 && k < |Log(c, st, payload, x)|
    ensures var bytes := Log(c, st, payload, x)[k].bytes;
            && |bytes| >= HEADER_SIZE
            && Decode(bytes)
               == Header(0, 0, if IsReinjection(c, st, payload, x, k) then 3 else x.queue, Number(st), x.now)
  {
    HeaderRoundTrip(Header(0, 0, x.queue, Number(st), x.now), payload);
    HeaderRoundTrip(Header(0, 0, 3, Number(st), x.now), payload);
  }

  /** The burst counts down exactly when a re-injected copy was forwarded. */
  lemma BurstCountsDown(c: Config, st: Sender, payload: seq<Byte>, x: Input)
    requires c.Valid() && c.hasCallback && HEADER_SIZE + |payload| <= MAX_PACKET_SIZE
    ensures var log := Log(c, st, payload, x);
            var again := |log| >= 2 && IsReinjection(c, st, payload, x, |log| - 2) && log[|log| - 2].ok;
            After(c, st, payload, x).burst == if again then st.burst - 1 else st.burst
  {
  }
}
