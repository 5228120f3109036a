/**
 The weighted path choice of the PDCP sender, over exact reals: a request's link ids and ratios become a
 cumulative table, and a draw from [0, 1] picks a path.
*/
module Multilink {
  import opened Options

  function Sum(s: seq<real>): real {
    if s == [] then 0.0 else Sum(s[..|s| - 1]) + s[|s| - 1]
  }

  /** Entries with a link id in range and a ratio that is not negative. */
  predicate Usable(lid: int, ratio: real, links: nat) {
    0 <= lid < links && ratio >= 0.0
  }

  function Filtered(lids: seq<int>, ratios: seq<real>, links: nat): (res: (seq<nat>, seq<real>))
    requires |lids| == |ratios|
    ensures |res.0| == |res.1|
    ensures forall i :: 0 <= i < |res.0| ==> res.0[i] < links && res.1[i] >= 0.0
  {
    if lids == [] then ([], [])
    else
      var k := |lids| - 1;
      var (ps, rs) := Filtered(lids[..k], ratios[..k], links);
      if Usable(lids[k], ratios[k], links) then (ps + [lids[k]], rs + [ratios[k]]) else (ps, rs)
  }

  datatype Table = Table(paths: seq<nat>, cum: seq<real>)

  function Share(x: real, sum: real): real
    requires sum > 0.0
  {
    x / sum
  }

  /** The cumulative share of the first `i + 1` ratios. */
  ghost predicate IsCdf(cum: seq<real>, ratios: seq<real>, sum: real)
    requires sum > 0.0
  {
    |cum| == |ratios| && forall i :: 0 <= i < |cum| ==> cum[i] == Share(Sum(ratios[..i + 1]), sum)
  }

  lemma AddShares(a: real, b: real, sum: real)
    requires sum > 0.0
    ensures Share(a, sum) + Share(b, sum) == Share(a + b, sum)
  {
  }

  method KeepUsable(lids: seq<int>, ratios: seq<real>, links: nat) returns (mlPaths: seq<nat>, mlRatios: seq<real>)
    requires |lids| == |ratios|
    ensures (mlPaths, mlRatios) == Filtered(lids, ratios, links)
  {
    mlPaths, mlRatios := [], [];
    for i := 0 to |lids|
      invariant (mlPaths, mlRatios) == Filtered(lids[..i], ratios[..i], links)
    {
      assert lids[..i + 1][..i] == lids[..i] && ratios[..i + 1][..i] == ratios[..i];
      if 0 <= lids[i] < links && ratios[i] >= 0.0 {
        mlPaths := mlPaths + [lids[i]];
        mlRatios := mlRatios + [ratios[i]];
      }
    }
    assert lids[..|lids|] == lids && ratios[..|lids|] == ratios;
  }

  method AddUp(s: seq<real>) returns (sum: real)
    ensures sum == Sum(s)
  {
    sum := 0.0;
    for i := 0 to |s|
      invariant sum == Sum(s[..i])
    {
      assert s[..i + 1][..i] == s[..i];
      sum := sum + s[i];
    }
    assert s[..|s|] == s;
  }

  method Accumulate(ratios: seq<real>, sum: real) returns (cdf: seq<real>)
    requires sum > 0.0
    ensures IsCdf(cdf, ratios, sum)
  {
    cdf := [];
    var acc := 0.0;
    for i := 0 to |ratios|
      invariant |cdf| == i && acc == Share(Sum(ratios[..i]), sum)
      invariant forall j :: 0 <= j < i ==> cdf[j] == Share(Sum(ratios[..j + 1]), sum)
    {
      assert ratios[..i + 1][..i] == ratios[..i];
      AddShares(Sum(ratios[..i]), ratios[i], sum);
      acc := acc + Share(ratios[i], sum);
      cdf := cdf + [acc];
    }
  }

  /**
   The multilink branch of the path command. `None` means the command falls through to the single-path
   branch, which turns multilink off.
  */
  method BuildTable(lids: seq<int>, ratios: seq<real>, links: nat) returns (table: Option<Table>)
    ensures var n := if |lids| < |ratios| then |lids| else |ratios|;
            var (ps, rs) := Filtered(lids[..n], ratios[..n], links);
            && (table.Some? <==> ps != [] && Sum(rs) > 0.0)
            && (table.Some? ==> table.value.paths == ps && IsCdf(table.value.cum, rs, Sum(rs)))
  {
    var n := if |lids| < |ratios| then |lids| else |ratios|;
    var mlPaths, mlRatios := KeepUsable(lids[..n], ratios[..n], links);
    var sum := AddUp(mlRatios);
    if mlPaths == [] || !(sum > 0.0) {
      return None;
    }
    var cdf := Accumulate(mlRatios, sum);
    return Some(Table(mlPaths, cdf));
  }

  /** The pick loop: stop at the first entry that is at least the draw, or at the last entry. */
  method Pick(cum: seq<real>, draw: real) returns (pick: nat)
    requires cum != []
    ensures pick < |cum|
    ensures forall j :: 0 <= j < pick ==> cum[j] < draw
    ensures pick + 1 < |cum| ==> draw <= cum[pick]
    ensures pick == PickFrom(cum, draw, 0)
  {
    pick := 0;
    while pick + 1 < |cum|
      invariant pick < |cum|
      invariant forall j :: 0 <= j < pick ==> cum[j] < draw
      invariant PickFrom(cum, draw, 0) == PickFrom(cum, draw, pick)
    {
      if draw <= cum[pick] {
        break;
      }
      pick := pick + 1;
    }
  }

  function PickFrom(cum: seq<real>, draw: real, i: nat): (pick: nat)
    requires i < |cum|
    ensures i <= pick < |cum|
    ensures forall j :: i <= j < pick ==> cum[j] < draw
    ensures pick + 1 < |cum| ==> draw <= cum[pick]
    decreases |cum| - i
  {
    if i + 1 < |cum| && !(draw <= cum[i]) then PickFrom(cum, draw, i + 1) else i
  }

  // ---------------------------------------------------------------------------------------------
  // What the table and the pick mean
  // ---------------------------------------------------------------------------------------------

  lemma ShareMonotone(a: real, b: real, sum: real)
    requires a <= b && sum > 0.0
    ensures Share(a, sum) <= Share(b, sum)
  {
  }

  lemma CdfStep(cum: seq<real>, ratios: seq<real>, sum: real, i: nat)
    requires sum > 0.0 && IsCdf(cum, ratios, sum) && 0 < i < |cum|
    ensures cum[i] - cum[i - 1] == Share(ratios[i], sum)
  {
    assert ratios[..i + 1][..i] == ratios[..i];
    AddShares(Sum(ratios[..i]), ratios[i], sum);
  }

  lemma {:induction false} CdfMonotone(cum: seq<real>, ratios: seq<real>, sum: real, i: nat, j: nat)
    requires sum > 0.0 && IsCdf(cum, ratios, sum) && i <= j < |cum|
    requires forall k :: 0 <= k < |ratios| ==> ratios[k] >= 0.0
    ensures cum[i] <= cum[j]
    decreases j
  {
    if i < j {
      CdfMonotone(cum, ratios, sum, i, j - 1);
      CdfStep(cum, ratios, sum, j);
      ShareMonotone(0.0, ratios[j], sum);
    }
  }

  /** The table is non-decreasing, starts at the first share, and ends at exactly 1. */
  lemma TableShape(cum: seq<real>, ratios: seq<real>)
    requires ratios != [] && Sum(ratios) > 0.0 && IsCdf(cum, ratios, Sum(ratios))
    requires forall k :: 0 <= k < |ratios| ==> ratios[k] >= 0.0
    ensures forall i, j :: 0 <= i <= j < |cum| ==> cum[i] <= cum[j]
    ensures cum[0] == Share(ratios[0], Sum(ratios))
    ensures cum[|cum| - 1] == 1.0
  {
    forall i, j | 0 <= i <= j < |cum| ensures cum[i] <= cum[j] {
      CdfMonotone(cum, ratios, Sum(ratios), i, j);
    }
    FirstSum(ratios);
    assert ratios[..|ratios|] == ratios;
    WholeShare(Sum(ratios));
  }

  lemma FirstSum(s: seq<real>)
    requires s != []
    ensures Sum(s[..1]) == s[0]
  {
    assert s[..1][..0] == [];
  }

  lemma WholeShare(sum: real)
    requires sum > 0.0
    ensures Share(sum, sum) == 1.0
  {
  }

  /** Where path `i`'s interval of draws starts. */
  function Low(cum: seq<real>, i: nat): real
    requires i < |cum|
  {
    if i == 0 then 0.0 else cum[i - 1]
  }

  /**
   The draws in (0, 1] that pick entry `i` are exactly those of the interval (Low, cum[i]], whose length is
   the entry's ratio divided by the sum of all ratios.
  */
  lemma PicksExactlyItsShare(cum: seq<real>, ratios: seq<real>, draw: real, i: nat)
    requires ratios != [] && Sum(ratios) > 0.0 && IsCdf(cum, ratios, Sum(ratios))
    requires forall k :: 0 <= k < |ratios| ==> ratios[k] >= 0.0
    requires 0.0 < draw <= 1.0 && i < |cum|
    ensures PickFrom(cum, draw, 0) == i <==> Low(cum, i) < draw <= cum[i]
    ensures cum[i] - Low(cum, i) == Share(ratios[i], Sum(ratios))
  {
    TableShape(cum, ratios);
    if i > 0 {
      CdfStep(cum, ratios, Sum(ratios), i);
    }
    var p := PickFrom(cum, draw, 0);
    assert draw <= cum[p];
    if p < i {
      assert cum[p] <= cum[i - 1];
    } else if i < p {
      assert cum[i] < draw;
    }
  }

  /** A path with ratio 0 is picked only by the draw 0, and then only as the first entry. */
  lemma ZeroRatioPick(cum: seq<real>, ratios: seq<real>, draw: real)
    requires ratios != [] && Sum(ratios) > 0.0 && IsCdf(cum, ratios, Sum(ratios))
    requires forall k :: 0 <= k < |ratios| ==> ratios[k] >= 0.0
    requires 0.0 <= draw <= 1.0
    ensures var p := PickFrom(cum, draw, 0); ratios[p] == 0.0 ==> p == 0 && draw == 0.0
  {
    TableShape(cum, ratios);
    var p := PickFrom(cum, draw, 0);
    if draw > 0.0 {
      PicksExactlyItsShare(cum, ratios, draw, p);
    } else {
      ShareMonotone(0.0, ratios[0], Sum(ratios));
    }
  }
}
