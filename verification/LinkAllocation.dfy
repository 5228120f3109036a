/**
 Water filling: split a frame over links, in priority order, so that all finish together and before the deadline.
 Reals are exact; delays and times are seconds.
*/
module LinkAllocation {
  import opened Options

  /** `deadline_s_`. */
  const DEADLINE := 0.1

  /** A link's figures: throughput in bits per second, delays, and the queue in bytes. */
  datatype Metrics = Metrics(id: nat, throughput: real, xnDelayMs: real, drxWake: nat, queueSize: nat, priority: nat)

  datatype Link = Link(id: nat, throughput: real, delay: real, priority: nat)

  datatype Allocation = Allocation(links: seq<nat>, splits: seq<real>, time: real)

  function Bits(frameSize: nat): real {
    8.0 * frameSize as real
  }

  predicate Usable(ls: seq<Link>) {
    forall i :: 0 <= i < |ls| ==> ls[i].throughput > 0.0
  }

  // ---------------------------------------------------------------------------------------------
  // Completion time
  // ---------------------------------------------------------------------------------------------

  function Rate(ls: seq<Link>): real {
    if ls == [] then 0.0 else Rate(ls[..|ls| - 1]) + ls[|ls| - 1].throughput
  }

  /** The sum of delay times throughput. */
  function Waiting(ls: seq<Link>): real {
    if ls == [] then 0.0
    else Waiting(ls[..|ls| - 1]) + ls[|ls| - 1].delay * ls[|ls| - 1].throughput
  }

  /** The bits the links can deliver by time `t`; a link with a larger delay counts as negative. */
  function Capacity(ls: seq<Link>, t: real): real {
    if ls == [] then 0.0
    else Capacity(ls[..|ls| - 1], t) + Room(ls[|ls| - 1], t)
  }

  function Room(l: Link, t: real): real {
    (t - l.delay) * l.throughput
  }

  lemma {:induction false} RatePositive(ls: seq<Link>)
    requires Usable(ls)
    ensures Rate(ls) >= 0.0
    ensures ls != [] ==> Rate(ls) > 0.0
  {
    if ls != [] {
      RatePositive(ls[..|ls| - 1]);
    }
  }

  lemma {:induction false} CapacityIs(ls: seq<Link>, t: real)
    ensures Capacity(ls, t) == t * Rate(ls) - Waiting(ls)
  {
    if ls != [] {
      var k := |ls| - 1;
      CapacityIs(ls[..k], t);
      Distribute(t, Rate(ls[..k]), ls[k].throughput);
      RoomIs(ls[k], t);
    }
  }

  lemma Distribute(t: real, a: real, b: real)
    ensures t * (a + b) == t * a + t * b
  {
  }

  lemma RoomIs(l: Link, t: real)
    ensures Room(l, t) == t * l.throughput - l.delay * l.throughput
  {
  }

  /** The time at which the links, used together, have delivered `bits`. */
  function Time(ls: seq<Link>, bits: real): real
    requires ls != [] && Usable(ls)
  {
    RatePositive(ls);
    (bits + Waiting(ls)) / Rate(ls)
  }

  lemma Quotient(a: real, b: real)
    requires b > 0.0
    ensures a / b * b == a
  {
  }

  /** At that time exactly the frame has been delivered. */
  lemma TimeDelivers(ls: seq<Link>, bits: real)
    requires ls != [] && Usable(ls)
    ensures Capacity(ls, Time(ls, bits)) == bits
  {
    RatePositive(ls);
    Quotient(bits + Waiting(ls), Rate(ls));
    CapacityIs(ls, Time(ls, bits));
  }

  // ---------------------------------------------------------------------------------------------
  // Divisions of a frame
  // ---------------------------------------------------------------------------------------------

  function Sum(s: seq<real>): real {
    if s == [] then 0.0 else Sum(s[..|s| - 1]) + s[|s| - 1]
  }

  function Ratio(a: real, b: real): real
    requires b > 0.0
  {
    a / b
  }

  /** When a link that gets `share` of the frame is done with it. */
  function Finish(l: Link, share: real, bits: real): real
    requires l.throughput > 0.0
  {
    l.delay + Ratio(share * bits, l.throughput)
  }

  /** Shares of a whole frame, one per link. */
  predicate Division(shares: seq<real>, ls: seq<Link>) {
    && |shares| == |ls|
    && (forall i :: 0 <= i < |shares| ==> shares[i] >= 0.0)
    && Sum(shares) == 1.0
  }

  /** Every link that is used is done by `t`. */
  predicate DoneBy(shares: seq<real>, ls: seq<Link>, bits: real, t: real)
    requires |shares| == |ls| && Usable(ls)
  {
    forall i :: 0 <= i < |ls| && shares[i] > 0.0 ==> Finish(ls[i], shares[i], bits) <= t
  }

  /** `calculate_delivery_time` gives each link what it can deliver by the common time. */
  function Splits(ls: seq<Link>, bits: real, t: real): (s: seq<real>)
    requires bits > 0.0
    ensures |s| == |ls|
    ensures forall i :: 0 <= i < |s| ==> s[i] == Ratio(Room(ls[i], t), bits)
  {
    if ls == [] then []
    else Splits(ls[..|ls| - 1], bits, t) + [Ratio(Room(ls[|ls| - 1], t), bits)]
  }

  /** Every link's delay is at most `t`. */
  predicate Reachable(ls: seq<Link>, t: real) {
    forall i :: 0 <= i < |ls| ==> ls[i].delay <= t
  }

  lemma AddRatios(a: real, b: real, c: real)
    requires c > 0.0
    ensures Ratio(a, c) + Ratio(b, c) == Ratio(a + b, c)
  {
  }

  lemma {:induction false} SplitsSum(ls: seq<Link>, bits: real, t: real)
    requires bits > 0.0
    ensures Sum(Splits(ls, bits, t)) == Ratio(Capacity(ls, t), bits)
  {
    if ls != [] {
      var k := |ls| - 1;
      SplitsSum(ls[..k], bits, t);
      AddRatios(Capacity(ls[..k], t), Room(ls[k], t), bits);
      assert Splits(ls, bits, t)[..k] == Splits(ls[..k], bits, t);
    }
  }

  lemma RoomNonNegative(l: Link, t: real)
    requires l.throughput > 0.0 && l.delay <= t
    ensures Room(l, t) >= 0.0
  {
  }

  lemma RatioNonNegative(a: real, b: real)
    requires a >= 0.0 && b > 0.0
    ensures Ratio(a, b) >= 0.0
  {
  }

  lemma RatioOne(a: real)
    requires a > 0.0
    ensures Ratio(a, a) == 1.0
  {
  }

  /** A link that gets its room at `t` is done exactly at `t`. */
  lemma FinishAt(l: Link, bits: real, t: real)
    requires l.throughput > 0.0 && bits > 0.0
    ensures Finish(l, Ratio(Room(l, t), bits), bits) == t
  {
    Quotient(Room(l, t), bits);
    assert Ratio(Room(l, t), bits) * bits == Room(l, t);
    RatioCancels(t - l.delay, l.throughput);
  }

  lemma RatioCancels(a: real, b: real)
    requires b > 0.0
    ensures Ratio(a * b, b) == a
  {
  }

  /** The splits are non-negative, sum to exactly 1, and every link is done exactly at the common time. */
  lemma SplitsDivide(ls: seq<Link>, bits: real)
    requires ls != [] && Usable(ls) && bits > 0.0 && Reachable(ls, Time(ls, bits))
    ensures var t := Time(ls, bits);
            && Division(Splits(ls, bits, t), ls)
            && forall i :: 0 <= i < |ls| ==> Finish(ls[i], Splits(ls, bits, t)[i], bits) == t
  {
    var t := Time(ls, bits);
    SplitsSum(ls, bits, t);
    TimeDelivers(ls, bits);
    RatioOne(bits);
    forall i | 0 <= i < |ls|
      ensures Splits(ls, bits, t)[i] >= 0.0
      ensures Finish(ls[i], Splits(ls, bits, t)[i], bits) == t
    {
      RoomNonNegative(ls[i], t);
      RatioNonNegative(Room(ls[i], t), bits);
      FinishAt(ls[i], bits, t);
    }
  }

  // ---------------------------------------------------------------------------------------------
  // Optimality
  // ---------------------------------------------------------------------------------------------

  lemma FinishBound(l: Link, share: real, bits: real, t: real)
    requires l.throughput > 0.0
    ensures Finish(l, share, bits) <= t <==> share * bits <= Room(l, t)
    ensures Finish(l, share, bits) < t <==> share * bits < Room(l, t)
  {
    var q := Ratio(share * bits, l.throughput);
    Quotient(share * bits, l.throughput);
    assert q * l.throughput == share * bits;
  }

  /** What a link gets is within its room at `t`. */
  lemma ShareWithin(l: Link, share: real, bits: real, t: real)
    requires l.throughput > 0.0 && l.delay <= t && share >= 0.0
    requires share > 0.0 ==> Finish(l, share, bits) <= t
    ensures share * bits <= Room(l, t)
    ensures share > 0.0 && Finish(l, share, bits) < t ==> share * bits < Room(l, t)
  {
    if share > 0.0 {
      FinishBound(l, share, bits, t);
    } else {
      RoomNonNegative(l, t);
    }
  }

  /** The bits each link gets. */
  function Amounts(shares: seq<real>, bits: real): (amounts: seq<real>)
    ensures |amounts| == |shares| && forall i :: 0 <= i < |shares| ==> amounts[i] == shares[i] * bits
  {
    if shares == [] then [] else Amounts(shares[..|shares| - 1], bits) + [shares[|shares| - 1] * bits]
  }

  lemma {:induction false} AmountsSum(shares: seq<real>, bits: real)
    ensures Sum(Amounts(shares, bits)) == Sum(shares) * bits
  {
    if shares != [] {
      var k := |shares| - 1;
      AmountsSum(shares[..k], bits);
      assert Amounts(shares, bits)[..k] == Amounts(shares[..k], bits);
      Distribute(bits, Sum(shares[..k]), shares[k]);
    }
  }

  lemma {:induction false} AmountsWithin(amounts: seq<real>, ls: seq<Link>, t: real)
    requires |amounts| == |ls| && forall i :: 0 <= i < |ls| ==> amounts[i] <= Room(ls[i], t)
    ensures Sum(amounts) <= Capacity(ls, t)
  {
    if ls != [] {
      AmountsWithin(amounts[..|ls| - 1], ls[..|ls| - 1], t);
    }
  }

  /** If all used links are done by `t`, the frame is within the capacity at `t`. */
  lemma WithinCapacity(shares: seq<real>, ls: seq<Link>, bits: real, t: real)
    requires |shares| == |ls| && Usable(ls) && Reachable(ls, t) && bits > 0.0
    requires forall i :: 0 <= i < |shares| ==> shares[i] >= 0.0
    requires DoneBy(shares, ls, bits, t)
    ensures Sum(shares) * bits <= Capacity(ls, t)
  {
    var amounts := Amounts(shares, bits);
    forall i | 0 <= i < |ls| ensures amounts[i] <= Room(ls[i], t) {
      ShareWithin(ls[i], shares[i], bits, t);
    }
    AmountsWithin(amounts, ls, t);
    AmountsSum(shares, bits);
  }

  /** If all used links are done before `t` and some link is used, strictly within. */
  lemma {:induction false} StrictlyWithinCapacity(shares: seq<real>, ls: seq<Link>, bits: real, t: real)
    requires |shares| == |ls| && Usable(ls) && Reachable(ls, t) && bits > 0.0
    requires forall i :: 0 <= i < |shares| ==> shares[i] >= 0.0
    requires forall i :: 0 <= i < |ls| && shares[i] > 0.0 ==> Finish(ls[i], shares[i], bits) < t
    ensures Sum(shares) >= 0.0 && Sum(shares) * bits <= Capacity(ls, t)
    ensures Sum(shares) > 0.0 ==> Sum(shares) * bits < Capacity(ls, t)
  {
    if ls != [] {
      var k := |ls| - 1;
      StrictlyWithinCapacity(shares[..k], ls[..k], bits, t);
      Distribute(bits, Sum(shares[..k]), shares[k]);
      ShareWithin(ls[k], shares[k], bits, t);
    }
  }

  /** Min-max: any division over the same links has a used link that is done no earlier than the common time. */
  lemma NoDivisionIsFaster(ls: seq<Link>, bits: real, shares: seq<real>)
    requires ls != [] && Usable(ls) && bits > 0.0 && Reachable(ls, Time(ls, bits))
    requires Division(shares, ls)
    ensures exists i :: 0 <= i < |ls| && shares[i] > 0.0 && Finish(ls[i], shares[i], bits) >= Time(ls, bits)
  {
    var t := Time(ls, bits);
    if forall i :: 0 <= i < |ls| && shares[i] > 0.0 ==> Finish(ls[i], shares[i], bits) < t {
      StrictlyWithinCapacity(shares, ls, bits, t);
      TimeDelivers(ls, bits);
      assert false;
    }
  }

  // ---------------------------------------------------------------------------------------------
  // Shorter prefixes
  // ---------------------------------------------------------------------------------------------

  lemma PrefixUsable(ls: seq<Link>, k: nat)
    requires Usable(ls) && k <= |ls|
    ensures Usable(ls[..k])
  {
  }

  /** A link with a delay of at most `t` only adds capacity at `t`. */
  lemma {:induction false} CapacityGrows(ls: seq<Link>, j: nat, t: real)
    requires j <= |ls| && Usable(ls) && Reachable(ls, t)
    ensures Capacity(ls[..j], t) <= Capacity(ls, t)
  {
    if j < |ls| {
      var k := |ls| - 1;
      assert ls[..k][..j] == ls[..j];
      CapacityGrows(ls[..k], j, t);
      RoomNonNegative(ls[k], t);
    } else {
      assert ls[..j] == ls;
    }
  }

  lemma {:induction false} CapacityIncreases(ls: seq<Link>, s: real, t: real)
    requires Usable(ls) && ls != [] && Capacity(ls, s) <= Capacity(ls, t)
    ensures s <= t
  {
    RatePositive(ls);
    CapacityIs(ls, s);
    CapacityIs(ls, t);
    CancelRate(s, t, Rate(ls));
  }

  lemma CancelRate(s: real, t: real, r: real)
    requires r > 0.0 && s * r <= t * r
    ensures s <= t
  {
    if s > t {
      ScaleStrict(t, s, r);
    }
  }

  lemma ScaleStrict(a: real, b: real, r: real)
    requires a < b && r > 0.0
    ensures a * r < b * r
  {
  }

  /** When all of `ls` are reachable by their common time, every shorter prefix takes at least as long. */
  lemma ShorterTakesLonger(ls: seq<Link>, j: nat, bits: real)
    requires Usable(ls) && 0 < j <= |ls| && Reachable(ls, Time(ls, bits))
    ensures Usable(ls[..j]) && Time(ls[..j], bits) >= Time(ls, bits)
  {
    PrefixUsable(ls, j);
    TimeDelivers(ls, bits);
    TimeDelivers(ls[..j], bits);
    CapacityGrows(ls, j, Time(ls, bits));
    CapacityIncreases(ls[..j], Time(ls, bits), Time(ls[..j], bits));
  }

  /** The guard of the loop: the first `k` links can finish together, and in time. */
  predicate Accepted(ls: seq<Link>, k: nat, bits: real)
    requires Usable(ls)
  {
    && 0 < k <= |ls| && Usable(ls[..k])
    && Reachable(ls[..k], Time(ls[..k], bits))
    && Time(ls[..k], bits) <= DEADLINE
  }

  /** Some division over the links meets the deadline. */
  ghost predicate Possible(ls: seq<Link>, bits: real)
    requires Usable(ls)
  {
    exists shares :: Division(shares, ls) && DoneBy(shares, ls, bits, DEADLINE)
  }

  lemma TooLate(ls: seq<Link>, bits: real, shares: seq<real>)
    requires ls != [] && Usable(ls) && bits > 0.0
    requires Reachable(ls, DEADLINE) && Time(ls, bits) > DEADLINE && Division(shares, ls)
    ensures !DoneBy(shares, ls, bits, DEADLINE)
  {
    if DoneBy(shares, ls, bits, DEADLINE) {
      WithinCapacity(shares, ls, bits, DEADLINE);
      TimeDelivers(ls, bits);
      CapacityIncreases(ls, Time(ls, bits), DEADLINE);
      assert false;
    }
  }

  /**
   The number of links is minimal: if the loop stops at `k`, no division of the frame over any shorter prefix of the
   priority order meets the deadline.
  */
  lemma NoShorterPrefixIsPossible(ls: seq<Link>, k: nat, j: nat, bits: real)
    requires Usable(ls) && bits > 0.0 && Accepted(ls, k, bits)
    requires forall i :: 0 < i < k ==> !Accepted(ls, i, bits)
    requires 0 < j < k
    ensures Usable(ls[..j]) && !Possible(ls[..j], bits)
  {
    assert ls[..k][..j] == ls[..j];
    ShorterTakesLonger(ls[..k], j, bits);
    assert Reachable(ls[..j], Time(ls[..k], bits));
    assert !Accepted(ls, j, bits);
    assert Time(ls[..j], bits) > DEADLINE;
    forall shares | Division(shares, ls[..j]) ensures !DoneBy(shares, ls[..j], bits, DEADLINE) {
      TooLate(ls[..j], bits, shares);
    }
  }

  // ---------------------------------------------------------------------------------------------
  // When a result is found
  // ---------------------------------------------------------------------------------------------

  function Zeros(n: nat): (s: seq<real>)
    ensures |s| == n && forall i :: 0 <= i < n ==> s[i] == 0.0
  {
    if n == 0 then [] else Zeros(n - 1) + [0.0]
  }

  lemma {:induction false} SumZeros(s: seq<real>, n: nat)
    ensures Sum(s + Zeros(n)) == Sum(s)
  {
    if n == 0 {
      assert s + Zeros(0) == s;
    } else {
      SumZeros(s, n - 1);
      assert (s + Zeros(n))[..|s| + n - 1] == s + Zeros(n - 1);
    }
  }

  /** Whatever the order, an accepted prefix gives a division that meets the deadline. */
  lemma AcceptedIsPossible(ls: seq<Link>, k: nat, bits: real)
    requires Usable(ls) && bits > 0.0 && Accepted(ls, k, bits)
    ensures Possible(ls, bits)
  {
    var t := Time(ls[..k], bits);
    SplitsDivide(ls[..k], bits);
    var splits := Splits(ls[..k], bits, t);
    var shares := splits + Zeros(|ls| - k);
    SumZeros(splits, |ls| - k);
    forall i | 0 <= i < |ls| && shares[i] > 0.0 ensures Finish(ls[i], shares[i], bits) <= DEADLINE {
      assert i < k && ls[..k][i] == ls[i];
    }
    assert Division(shares, ls) && DoneBy(shares, ls, bits, DEADLINE);
  }

  /** What the links can deliver by the deadline, each used only if that helps. */
  function Most(ls: seq<Link>): real {
    if ls == [] then 0.0 else Most(ls[..|ls| - 1]) + Useful(ls[|ls| - 1])
  }

  function Useful(l: Link): real {
    if l.delay < DEADLINE then Room(l, DEADLINE) else 0.0
  }

  lemma UsefulNonNegative(l: Link)
    requires l.throughput > 0.0
    ensures Useful(l) >= 0.0 && Room(l, DEADLINE) <= Useful(l)
    ensures l.delay < DEADLINE ==> Useful(l) > 0.0
  {
    if l.delay < DEADLINE {
      PositiveProduct(DEADLINE - l.delay, l.throughput);
    }
  }

  lemma PositiveProduct(a: real, b: real)
    requires a > 0.0 && b > 0.0
    ensures a * b > 0.0
  {
  }

  lemma {:induction false} MostNonNegative(ls: seq<Link>)
    requires Usable(ls)
    ensures Most(ls) >= 0.0
  {
    if ls != [] {
      MostNonNegative(ls[..|ls| - 1]);
      UsefulNonNegative(ls[|ls| - 1]);
    }
  }

  /** A link that is done by the deadline gets at most what is useful. */
  lemma ShareUseful(l: Link, share: real, bits: real)
    requires l.throughput > 0.0 && share >= 0.0 && bits > 0.0
    requires share > 0.0 ==> Finish(l, share, bits) <= DEADLINE
    ensures share * bits <= Useful(l)
  {
    UsefulNonNegative(l);
    if share > 0.0 {
      FinishBound(l, share, bits, DEADLINE);
    }
  }

  lemma {:induction false} AmountsUseful(amounts: seq<real>, ls: seq<Link>)
    requires |amounts| == |ls| && forall i :: 0 <= i < |ls| ==> amounts[i] <= Useful(ls[i])
    ensures Sum(amounts) <= Most(ls)
  {
    if ls != [] {
      AmountsUseful(amounts[..|ls| - 1], ls[..|ls| - 1]);
    }
  }

  lemma WithinMost(shares: seq<real>, ls: seq<Link>, bits: real)
    requires |shares| == |ls| && Usable(ls) && bits > 0.0
    requires forall i :: 0 <= i < |shares| ==> shares[i] >= 0.0
    requires DoneBy(shares, ls, bits, DEADLINE)
    ensures Sum(shares) * bits <= Most(ls)
  {
    var amounts := Amounts(shares, bits);
    forall i | 0 <= i < |ls| ensures amounts[i] <= Useful(ls[i]) {
      ShareUseful(ls[i], shares[i], bits);
    }
    AmountsUseful(amounts, ls);
    AmountsSum(shares, bits);
  }

  /** Every link gets its useful part of the frame. */
  function FairShares(ls: seq<Link>, most: real): (s: seq<real>)
    requires most > 0.0
    ensures |s| == |ls| && forall i :: 0 <= i < |s| ==> s[i] == Ratio(Useful(ls[i]), most)
  {
    if ls == [] then [] else FairShares(ls[..|ls| - 1], most) + [Ratio(Useful(ls[|ls| - 1]), most)]
  }

  lemma {:induction false} FairSharesSum(ls: seq<Link>, most: real)
    requires most > 0.0
    ensures Sum(FairShares(ls, most)) == Ratio(Most(ls), most)
  {
    if ls != [] {
      var k := |ls| - 1;
      FairSharesSum(ls[..k], most);
      AddRatios(Most(ls[..k]), Useful(ls[k]), most);
      assert FairShares(ls, most)[..k] == FairShares(ls[..k], most);
    }
  }

  lemma FairShareInTime(l: Link, most: real, bits: real)
    requires l.throughput > 0.0 && 0.0 < bits <= most && Useful(l) > 0.0
    ensures Finish(l, Ratio(Useful(l), most), bits) <= DEADLINE
  {
    var q := Ratio(Useful(l), most);
    Quotient(Useful(l), most);
    RatioNonNegative(Useful(l), most);
    assert q * most == Useful(l);
    Scale(bits, most, q);
    FinishBound(l, q, bits, DEADLINE);
  }

  lemma Scale(a: real, b: real, q: real)
    requires a <= b && q >= 0.0
    ensures q * a <= q * b
  {
  }

  /** Some division meets the deadline exactly if the frame is no larger than what the links can deliver by then. */
  lemma PossibleIffMost(ls: seq<Link>, bits: real)
    requires Usable(ls) && bits > 0.0
    ensures Possible(ls, bits) <==> bits <= Most(ls)
  {
    if Possible(ls, bits) {
      var shares :| Division(shares, ls) && DoneBy(shares, ls, bits, DEADLINE);
      WithinMost(shares, ls, bits);
    }
    if bits <= Most(ls) {
      var most := Most(ls);
      var shares := FairShares(ls, most);
      FairSharesSum(ls, most);
      RatioOne(most);
      forall i | 0 <= i < |ls|
        ensures shares[i] >= 0.0
        ensures shares[i] > 0.0 ==> Finish(ls[i], shares[i], bits) <= DEADLINE
      {
        UsefulNonNegative(ls[i]);
        RatioNonNegative(Useful(ls[i]), most);
        if Useful(ls[i]) > 0.0 {
          FairShareInTime(ls[i], most, bits);
        } else {
          RatioZero(most);
        }
      }
      assert Division(shares, ls) && DoneBy(shares, ls, bits, DEADLINE);
    }
  }

  lemma RatioZero(b: real)
    requires b > 0.0
    ensures Ratio(0.0, b) == 0.0
  {
  }

  // ---------------------------------------------------------------------------------------------
  // Which frame sizes a prefix is accepted for
  // ---------------------------------------------------------------------------------------------

  function MaxDelay(ls: seq<Link>): (m: real)
    requires ls != []
    ensures forall i :: 0 <= i < |ls| ==> ls[i].delay <= m
    ensures exists i :: 0 <= i < |ls| && ls[i].delay == m
  {
    var k := |ls| - 1;
    if k == 0 then ls[0].delay
    else
      var m := MaxDelay(ls[..k]);
      if ls[k].delay > m then ls[k].delay else m
  }

  /** The smallest frame for which all of the first `k` links are needed together, and the largest they can deliver. */
  function Lower(ls: seq<Link>, k: nat): real
    requires 0 < k <= |ls|
  {
    Capacity(ls[..k], MaxDelay(ls[..k]))
  }

  function Upper(ls: seq<Link>, k: nat): real
    requires k <= |ls|
  {
    Capacity(ls[..k], DEADLINE)
  }

  lemma CapacityMonotone(ls: seq<Link>, s: real, t: real)
    requires Usable(ls) && s <= t
    ensures Capacity(ls, s) <= Capacity(ls, t)
    ensures ls != [] && s < t ==> Capacity(ls, s) < Capacity(ls, t)
  {
    RatePositive(ls);
    CapacityIs(ls, s);
    CapacityIs(ls, t);
    if ls != [] {
      ScaleUp(s, t, Rate(ls));
      if s < t {
        ScaleStrict(s, t, Rate(ls));
      }
    }
  }

  /** The first `k` links are accepted exactly for the frames from `Lower` to `Upper`. */
  lemma AcceptedIffBetween(ls: seq<Link>, k: nat, bits: real)
    requires Usable(ls) && 0 < k <= |ls|
    ensures Accepted(ls, k, bits) <==> Lower(ls, k) <= bits <= Upper(ls, k)
  {
    PrefixUsable(ls, k);
    var p := ls[..k];
    var t := Time(p, bits);
    TimeDelivers(p, bits);
    assert Reachable(p, t) <==> MaxDelay(p) <= t;
    if MaxDelay(p) <= t {
      CapacityMonotone(p, MaxDelay(p), t);
    } else {
      CapacityMonotone(p, t, MaxDelay(p));
    }
    if t <= DEADLINE {
      CapacityMonotone(p, t, DEADLINE);
    } else {
      CapacityMonotone(p, DEADLINE, t);
    }
  }

  /** How many links from the front have a delay within the deadline. */
  function Leading(ls: seq<Link>): (n: nat)
    ensures n <= |ls|
    ensures forall i :: 0 <= i < n ==> ls[i].delay <= DEADLINE
    ensures n < |ls| ==> ls[n].delay > DEADLINE
  {
    LeadingFrom(ls, 0)
  }

  function LeadingFrom(ls: seq<Link>, i: nat): (n: nat)
    requires i <= |ls|
    ensures i <= n <= |ls|
    ensures forall j :: i <= j < n ==> ls[j].delay <= DEADLINE
    ensures n < |ls| ==> ls[n].delay > DEADLINE
    decreases |ls| - i
  {
    if i < |ls| && ls[i].delay <= DEADLINE then LeadingFrom(ls, i + 1) else i
  }

  lemma {:induction false} UpperGrows(ls: seq<Link>, i: nat, j: nat)
    requires Usable(ls) && i <= j <= Leading(ls)
    ensures Upper(ls, i) <= Upper(ls, j)
  {
    if i < j {
      UpperGrows(ls, i, j - 1);
      assert ls[..j][..j - 1] == ls[..j - 1];
      RoomNonNegative(ls[j - 1], DEADLINE);
    }
  }

  lemma MaxDelayGrows(ls: seq<Link>, i: nat, j: nat)
    requires 0 < i <= j <= |ls|
    ensures MaxDelay(ls[..i]) <= MaxDelay(ls[..j])
  {
    var k :| 0 <= k < i && ls[..i][k].delay == MaxDelay(ls[..i]);
    assert ls[..j][k] == ls[..i][k];
  }

  lemma LowerGrows(ls: seq<Link>, i: nat, j: nat)
    requires Usable(ls) && 0 < i <= j <= |ls|
    ensures Lower(ls, i) <= Lower(ls, j)
  {
    PrefixUsable(ls, j);
    PrefixUsable(ls, i);
    MaxDelayGrows(ls, i, j);
    assert ls[..j][..i] == ls[..i];
    CapacityMonotone(ls[..i], MaxDelay(ls[..i]), MaxDelay(ls[..j]));
    CapacityGrows(ls[..j], i, MaxDelay(ls[..j]));
  }

  lemma BeyondLeading(ls: seq<Link>, k: nat, bits: real)
    requires Usable(ls) && Leading(ls) < k <= |ls|
    ensures !Accepted(ls, k, bits)
  {
    PrefixUsable(ls, k);
    assert ls[..k][Leading(ls)] == ls[Leading(ls)];
    CapacityMonotone(ls[..k], DEADLINE, MaxDelay(ls[..k]));
    AcceptedIffBetween(ls, k, bits);
  }

  lemma FirstUpper(ls: seq<Link>, n: nat, bits: real) returns (k: nat)
    requires n <= |ls| && bits > 0.0 && bits <= Upper(ls, n)
    ensures 0 < k <= n && bits <= Upper(ls, k) && Upper(ls, k - 1) < bits
  {
    assert ls[..0] == [];
    k := n;
    while bits <= Upper(ls, k - 1)
      invariant 0 < k <= n && bits <= Upper(ls, k)
      decreases k
    {
      k := k - 1;
    }
  }

  lemma FirstLower(ls: seq<Link>)
    requires ls != []
    ensures Lower(ls, 1) == 0.0
  {
    var p := ls[..1];
    assert p == [ls[0]];
    var m := MaxDelay(p);
    assert m == ls[0].delay;
    assert p[..0] == [];
    assert Capacity(p, m) == Capacity(p[..0], m) + Room(p[0], m);
    NoRoomAtOwnDelay(ls[0]);
  }

  lemma NoRoomAtOwnDelay(l: Link)
    ensures Room(l, l.delay) == 0.0
  {
  }

  ghost predicate Found(ls: seq<Link>, bits: real)
    requires Usable(ls)
  {
    exists k :: Accepted(ls, k, bits)
  }

  /** A frame size that falls between what `k - 1` links can deliver and what `k` links are needed for. */
  ghost predicate InGap(ls: seq<Link>, bits: real) {
    exists k :: 2 <= k <= Leading(ls) && Upper(ls, k - 1) < bits < Lower(ls, k)
  }

  /**
   Exactly when the search misses a possible division: the frame is larger than what the links before the first one
   with a delay beyond the deadline can deliver, or it falls into a gap between two prefixes.
  */
  lemma MissedIff(ls: seq<Link>, bits: real)
    requires Usable(ls) && bits > 0.0
    ensures Possible(ls, bits) && !Found(ls, bits) <==>
              bits <= Most(ls) && (bits > Upper(ls, Leading(ls)) || InGap(ls, bits))
  {
    PossibleIffMost(ls, bits);
    if bits > Upper(ls, Leading(ls)) {
      forall k: nat ensures !Accepted(ls, k, bits) {
        if 0 < k <= Leading(ls) {
          UpperGrows(ls, k, Leading(ls));
          AcceptedIffBetween(ls, k, bits);
        } else if k <= |ls| && k > 0 {
          BeyondLeading(ls, k, bits);
        }
      }
    } else {
      GapIff(ls, bits);
    }
  }

  lemma GapIff(ls: seq<Link>, bits: real)
    requires Usable(ls) && 0.0 < bits <= Upper(ls, Leading(ls))
    ensures !Found(ls, bits) <==> InGap(ls, bits)
  {
    if InGap(ls, bits) {
      var g :| 2 <= g <= Leading(ls) && Upper(ls, g - 1) < bits < Lower(ls, g);
      forall k: nat ensures !Accepted(ls, k, bits) {
        if 0 < k <= |ls| {
          AcceptedIffBetween(ls, k, bits);
          if k < g {
            UpperGrows(ls, k, g - 1);
          } else {
            LowerGrows(ls, g, k);
          }
        }
      }
    } else {
      var k := FirstUpper(ls, Leading(ls), bits);
      AcceptedIffBetween(ls, k, bits);
      FirstLower(ls);
      assert k == 1 || !(Upper(ls, k - 1) < bits < Lower(ls, k));
      assert Accepted(ls, k, bits);
    }
  }

  // ---------------------------------------------------------------------------------------------
  // When the search is complete
  // ---------------------------------------------------------------------------------------------

  /** Whatever the frame size, a possible division is found. */
  ghost predicate Complete(ls: seq<Link>)
    requires Usable(ls)
  {
    forall bits: real :: bits > 0.0 && Possible(ls, bits) ==> Found(ls, bits)
  }

  /** No link that could help comes after one with a delay beyond the deadline. */
  predicate NoneHidden(ls: seq<Link>) {
    forall i :: Leading(ls) <= i < |ls| ==> ls[i].delay >= DEADLINE
  }

  lemma {:induction false} MostOfPrefix(ls: seq<Link>, k: nat)
    requires Usable(ls) && Leading(ls) <= k <= |ls|
    ensures Most(ls[..k]) >= Upper(ls, Leading(ls))
    ensures Most(ls[..k]) == Upper(ls, Leading(ls)) <==>
              forall i :: Leading(ls) <= i < k ==> ls[i].delay >= DEADLINE
  {
    if k == Leading(ls) {
      MostIsUpper(ls, k);
    } else {
      MostOfPrefix(ls, k - 1);
      assert ls[..k][..k - 1] == ls[..k - 1];
      UsefulNonNegative(ls[k - 1]);
    }
  }

  lemma {:induction false} MostIsUpper(ls: seq<Link>, k: nat)
    requires Usable(ls) && k <= Leading(ls)
    ensures Most(ls[..k]) == Upper(ls, k)
  {
    if k > 0 {
      MostIsUpper(ls, k - 1);
      assert ls[..k][..k - 1] == ls[..k - 1];
      RoomAtDelay(ls[k - 1]);
    }
  }

  lemma RoomAtDelay(l: Link)
    ensures l.delay == DEADLINE ==> Room(l, DEADLINE) == 0.0
  {
  }

  /**
   For a given list and all frame sizes: the search is complete if and only if no link with a delay below the deadline
   follows one with a delay beyond it, and each further link joins before the links ahead of it reach the deadline.
  */
  lemma CompleteIff(ls: seq<Link>)
    requires Usable(ls)
    ensures Complete(ls) <==>
              NoneHidden(ls) && forall k :: 2 <= k <= Leading(ls) ==> Lower(ls, k) <= Upper(ls, k - 1)
  {
    MostOfPrefix(ls, |ls|);
    assert ls[..|ls|] == ls;
    UpperGrows(ls, 0, Leading(ls));
    assert ls[..0] == [];
    if NoneHidden(ls) && forall k :: 2 <= k <= Leading(ls) ==> Lower(ls, k) <= Upper(ls, k - 1) {
      forall bits: real | bits > 0.0 && Possible(ls, bits) ensures Found(ls, bits) {
        MissedIff(ls, bits);
      }
    } else if !NoneHidden(ls) {
      PossibleIffMost(ls, Most(ls));
      MissedIff(ls, Most(ls));
    } else {
      var k :| 2 <= k <= Leading(ls) && Lower(ls, k) > Upper(ls, k - 1);
      GapIsMissed(ls, k);
    }
  }

  lemma GapIsMissed(ls: seq<Link>, k: nat)
    requires Usable(ls) && 2 <= k <= Leading(ls) && Lower(ls, k) > Upper(ls, k - 1)
    ensures !Complete(ls)
  {
    var bits := (Lower(ls, k) + Upper(ls, k - 1)) / 2.0;
    UpperGrows(ls, 0, k - 1);
    assert ls[..0] == [];
    UpperGrows(ls, k, Leading(ls));
    PrefixUsable(ls, k);
    var i :| 0 <= i < k && ls[..k][i].delay == MaxDelay(ls[..k]);
    CapacityMonotone(ls[..k], MaxDelay(ls[..k]), DEADLINE);
    MostOfPrefix(ls, |ls|);
    assert ls[..|ls|] == ls;
    MissedIff(ls, bits);
  }

  // ---------------------------------------------------------------------------------------------
  // Delays for which the search is complete whatever the throughputs
  // ---------------------------------------------------------------------------------------------

  /** Links with the given delays and throughputs; ids and priorities follow the order. */
  function LinksOf(delays: seq<real>, rates: seq<real>): (ls: seq<Link>)
    requires |delays| == |rates|
    ensures |ls| == |delays|
    ensures forall i :: 0 <= i < |ls| ==> ls[i] == Link(i, rates[i], delays[i], i)
  {
    if delays == [] then []
    else
      var k := |delays| - 1;
      LinksOf(delays[..k], rates[..k]) + [Link(k, rates[k], delays[k], k)]
  }

  predicate Positive(rates: seq<real>) {
    forall i :: 0 <= i < |rates| ==> rates[i] > 0.0
  }

  /** Whatever the throughputs, and for every frame of a whole number of bytes, a possible division is found. */
  ghost predicate AlwaysComplete(delays: seq<real>) {
    forall rates: seq<real>, bytes: nat ::
      (|rates| == |delays| && Positive(rates) && bytes > 0 && Possible(LinksOf(delays, rates), Bits(bytes))) ==>
        Found(LinksOf(delays, rates), Bits(bytes))
  }

  /** Every link with a delay below the deadline comes after no link with a larger delay. */
  predicate HelpfulInOrder(delays: seq<real>) {
    forall i, j :: 0 <= i < j < |delays| && delays[j] < DEADLINE ==> delays[i] <= delays[j]
  }

  lemma {:induction false} InOrderHasNoGaps(ls: seq<Link>, k: nat)
    requires Usable(ls) && 2 <= k <= Leading(ls)
    requires forall i, j :: 0 <= i < j < |ls| && ls[j].delay < DEADLINE ==> ls[i].delay <= ls[j].delay
    ensures Lower(ls, k) <= Upper(ls, k - 1)
  {
    var l, m := ls[k - 1], MaxDelay(ls[..k]);
    assert ls[..k][..k - 1] == ls[..k - 1];
    assert ls[..k][k - 1] == l;
    var i :| 0 <= i < k && ls[..k][i].delay == m;
    assert ls[..k][i] == ls[i];
    assert m == l.delay || (l.delay == DEADLINE && m == DEADLINE);
    NoRoomAtOwnDelay(l);
    PrefixUsable(ls, k - 1);
    CapacityMonotone(ls[..k - 1], m, DEADLINE);
  }

  lemma InOrderIsComplete(ls: seq<Link>)
    requires Usable(ls)
    requires forall i, j :: 0 <= i < j < |ls| && ls[j].delay < DEADLINE ==> ls[i].delay <= ls[j].delay
    ensures Complete(ls)
  {
    forall k | 2 <= k <= Leading(ls) ensures Lower(ls, k) <= Upper(ls, k - 1) {
      InOrderHasNoGaps(ls, k);
    }
    CompleteIff(ls);
  }

  /** The distances of the first delays from `t`. */
  function Far(delays: seq<real>, t: real): (f: real)
    ensures f >= 0.0
  {
    if delays == [] then 0.0
    else Far(delays[..|delays| - 1], t) + Distance(delays[|delays| - 1], t)
  }

  function Distance(a: real, b: real): (d: real)
    ensures d >= 0.0
  {
    if a <= b then b - a else a - b
  }

  /** What slow links with the given delays deliver by `t`, counted in size: their distances from `t` times the rate. */
  function Drift(delays: seq<real>, t: real, slow: real): (d: real)
    requires slow > 0.0
    ensures d >= 0.0
  {
    if delays == [] then 0.0
    else Drift(delays[..|delays| - 1], t, slow) + Part(delays[|delays| - 1], t, slow)
  }

  function Part(delay: real, t: real, slow: real): (p: real)
    requires slow > 0.0
    ensures p >= 0.0
  {
    ScaleNonNegative(slow, Distance(delay, t));
    slow * Distance(delay, t)
  }

  lemma {:induction false} DriftIs(delays: seq<real>, t: real, slow: real)
    requires slow > 0.0
    ensures Drift(delays, t, slow) == slow * Far(delays, t)
  {
    if delays != [] {
      var n := |delays| - 1;
      DriftIs(delays[..n], t, slow);
      Distribute(slow, Far(delays[..n], t), Distance(delays[n], t));
    }
  }

  lemma {:induction false} DriftGrows(delays: seq<real>, k: nat, t: real, slow: real)
    requires k <= |delays| && slow > 0.0
    ensures Drift(delays[..k], t, slow) <= Drift(delays, t, slow)
  {
    if k == |delays| {
      assert delays[..k] == delays;
    } else {
      var n := |delays| - 1;
      assert delays[..n][..k] == delays[..k];
      DriftGrows(delays[..n], k, t, slow);
    }
  }

  /** One fast link among slow ones. */
  function OneFast(n: nat, j: nat, fast: real, slow: real): (rates: seq<real>)
    ensures |rates| == n && forall i :: 0 <= i < n ==> rates[i] == if i == j then fast else slow
  {
    if n == 0 then [] else OneFast(n - 1, j, fast, slow) + [if n - 1 == j then fast else slow]
  }

  lemma SlowRoom(l: Link, t: real, slow: real)
    requires l.throughput == slow > 0.0
    ensures -Part(l.delay, t, slow) <= Room(l, t) <= Part(l.delay, t, slow)
  {
  }

  /** What the fast link contributes to the first `k`. */
  function Own(ls: seq<Link>, j: nat, k: nat, t: real): real
    requires j < |ls|
  {
    if j < k then Room(ls[j], t) else 0.0
  }

  /** The slow links together contribute between minus and plus their `Drift`. */
  lemma {:induction false} MostlyFast(delays: seq<real>, ls: seq<Link>, j: nat, slow: real, k: nat, t: real)
    requires |ls| == |delays| && k <= |ls| && slow > 0.0 && j < |ls|
    requires forall i :: 0 <= i < |ls| ==> ls[i].delay == delays[i] && (i != j ==> ls[i].throughput == slow)
    ensures var own, off := Own(ls, j, k, t), Drift(delays[..k], t, slow);
            own - off <= Capacity(ls[..k], t) <= own + off
  {
    if k > 0 {
      MostlyFast(delays, ls, j, slow, k - 1, t);
      assert ls[..k][..k - 1] == ls[..k - 1] && delays[..k][..k - 1] == delays[..k - 1];
      if j != k - 1 {
        SlowRoom(ls[k - 1], t, slow);
      }
    } else {
      assert ls[..0] == [] && delays[..0] == [];
    }
  }

  lemma ScaleNonNegative(a: real, b: real)
    requires a >= 0.0 && b >= 0.0
    ensures a * b >= 0.0
  {
  }

  lemma FastProduct(a: real, fast: real, c: real)
    requires a > 0.0 && fast >= c / a && c > 0.0
    ensures a * fast >= c
  {
    Quotient(c, a);
    Scale(c / a, fast, a);
  }

  lemma FastEnough(a: real, b: real) returns (fast: real)
    requires a > 0.0 && b > 0.0
    ensures fast > 0.0 && a * fast >= 8.0 && b * fast >= 10.0
  {
    var p, q := Ratio(8.0, a), Ratio(10.0, b);
    RatioNonNegative(8.0, a);
    RatioNonNegative(10.0, b);
    fast := 1.0 + p + q;
    FastProduct(a, fast, 8.0);
    FastProduct(b, fast, 10.0);
  }

  lemma SlowEnough(a: real, b: real) returns (slow: real)
    requires a >= 0.0 && b >= 0.0
    ensures slow > 0.0 && slow * a <= 1.0 && slow * b <= 1.0
  {
    slow := 1.0 / (1.0 + a + b);
    Quotient(1.0, 1.0 + a + b);
    Scale(a, 1.0 + a + b, slow);
    Scale(b, 1.0 + a + b, slow);
  }

  /** The setting of the counterexample: link `i` is ahead of the fast link `j` and has a larger delay. */
  predicate FastAfterFar(delays: seq<real>, ls: seq<Link>, i: nat, j: nat, slow: real) {
    && i < j < |delays| == |ls|
    && delays[j] < DEADLINE && delays[j] < delays[i]
    && (forall n :: 0 <= n < |ls| ==> ls[n].delay == delays[n] && (n != j ==> ls[n].throughput == slow))
    && slow > 0.0 && Drift(delays, DEADLINE, slow) <= 1.0 && Drift(delays, delays[i], slow) <= 1.0
    && ls[j].throughput > 0.0 && Room(ls[j], DEADLINE) >= 8.0 && Room(ls[j], delays[i]) >= 10.0
  }

  lemma FastIsUsable(delays: seq<real>, ls: seq<Link>, i: nat, j: nat, slow: real)
    requires FastAfterFar(delays, ls, i, j, slow)
    ensures Usable(ls)
  {
    forall n | 0 <= n < |ls| ensures ls[n].throughput > 0.0 {
      assert n != j ==> ls[n].throughput == slow;
    }
  }

  /** The links ahead of the fast one are too slow for one byte. */
  lemma AheadIsTooSlow(delays: seq<real>, ls: seq<Link>, i: nat, j: nat, slow: real, k: nat)
    requires FastAfterFar(delays, ls, i, j, slow) && 0 < k <= j
    ensures Upper(ls, k) <= 1.0
  {
    MostlyFast(delays, ls, j, slow, k, DEADLINE);
    DriftGrows(delays, k, DEADLINE, slow);
  }

  /** With the fast link, one byte is delivered before the link of larger delay can start. */
  lemma WithItIsTooFast(delays: seq<real>, ls: seq<Link>, i: nat, j: nat, slow: real, k: nat)
    requires FastAfterFar(delays, ls, i, j, slow) && j < k <= |ls|
    ensures Lower(ls, k) >= 9.0
  {
    var t := delays[i];
    MostlyFast(delays, ls, j, slow, k, t);
    DriftGrows(delays, k, t, slow);
    assert Capacity(ls[..k], t) >= 9.0;
    assert ls[..k][i].delay == t;
    FastIsUsable(delays, ls, i, j, slow);
    PrefixUsable(ls, k);
    CapacityMonotone(ls[..k], t, MaxDelay(ls[..k]));
  }

  /** One byte is possible over the fast link alone, but no prefix is accepted for it. */
  lemma FastLinkIsMissed(delays: seq<real>, ls: seq<Link>, i: nat, j: nat, slow: real)
    requires FastAfterFar(delays, ls, i, j, slow)
    ensures Usable(ls) && Possible(ls, 8.0) && !Found(ls, 8.0)
  {
    FastIsUsable(delays, ls, i, j, slow);
    UsefulInMost(ls, |ls|, j);
    assert ls[..|ls|] == ls;
    PossibleIffMost(ls, 8.0);
    forall k: nat ensures !Accepted(ls, k, 8.0) {
      if 0 < k <= |ls| {
        AcceptedIffBetween(ls, k, 8.0);
        if k <= j {
          AheadIsTooSlow(delays, ls, i, j, slow, k);
        } else {
          WithItIsTooFast(delays, ls, i, j, slow, k);
        }
      }
    }
  }

  lemma {:induction false} UsefulInMost(ls: seq<Link>, k: nat, j: nat)
    requires Usable(ls) && j < k <= |ls|
    ensures Most(ls[..k]) >= Useful(ls[j])
  {
    assert ls[..k][..k - 1] == ls[..k - 1];
    UsefulNonNegative(ls[k - 1]);
    PrefixUsable(ls, k - 1);
    if j == k - 1 {
      MostNonNegative(ls[..k - 1]);
    } else {
      UsefulInMost(ls, k - 1, j);
    }
  }

  lemma SlowRate(delays: seq<real>, s: real, t: real) returns (slow: real)
    ensures slow > 0.0 && Drift(delays, s, slow) <= 1.0 && Drift(delays, t, slow) <= 1.0
  {
    var a, b := Far(delays, s), Far(delays, t);
    slow := SlowEnough(a, b);
    DriftAtMostOne(delays, s, slow, a);
    DriftAtMostOne(delays, t, slow, b);
  }

  lemma DriftAtMostOne(delays: seq<real>, t: real, slow: real, far: real)
    requires slow > 0.0 && far == Far(delays, t) && slow * far <= 1.0
    ensures Drift(delays, t, slow) <= 1.0
  {
    DriftIs(delays, t, slow);
  }

  lemma FastRate(delay: real, s: real, t: real) returns (fast: real)
    requires delay < s && delay < t
    ensures fast > 0.0
    ensures forall l: Link :: l.delay == delay && l.throughput == fast ==> Room(l, s) >= 8.0 && Room(l, t) >= 10.0
  {
    fast := FastEnough(s - delay, t - delay);
  }

  /** Delays out of order have throughputs for which the search misses one byte. */
  lemma OutOfOrderIsMissed(delays: seq<real>, i: nat, j: nat) returns (rates: seq<real>)
    requires i < j < |delays| && delays[j] < DEADLINE && delays[i] > delays[j]
    ensures |rates| == |delays| && Positive(rates)
    ensures Possible(LinksOf(delays, rates), 8.0) && !Found(LinksOf(delays, rates), 8.0)
  {
    var slow := SlowRate(delays, DEADLINE, delays[i]);
    var fast := FastRate(delays[j], DEADLINE, delays[i]);
    rates := OneFast(|delays|, j, fast, slow);
    FastLinkIsMissed(delays, LinksOf(delays, rates), i, j, slow);
  }

  /**
   For given delays: the search is complete for all throughputs and frame sizes if and only if every link with a delay
   below the deadline comes after no link with a larger delay. These are total delays, taken as given although the part
   for the queue is its size divided by the throughput.
  */
  lemma AlwaysCompleteIffInOrder(delays: seq<real>)
    ensures AlwaysComplete(delays) <==> HelpfulInOrder(delays)
  {
    if HelpfulInOrder(delays) {
      forall rates: seq<real>, bytes: nat | |rates| == |delays| && Positive(rates) && bytes > 0
        && Possible(LinksOf(delays, rates), Bits(bytes))
        ensures Found(LinksOf(delays, rates), Bits(bytes))
      {
        InOrderIsComplete(LinksOf(delays, rates));
      }
    } else {
      var i, j :| 0 <= i < j < |delays| && delays[j] < DEADLINE && delays[i] > delays[j];
      var rates := OutOfOrderIsMissed(delays, i, j);
      assert Bits(1) == 8.0;
    }
  }

  /**
   For instance a link of large delay in the middle hides a possible division of 6 bytes: the third link alone would do,
   but no prefix is accepted.
  */
  lemma SlowLinkHidesASolution()
    ensures var ls := [Link(0, 1.0, 0.0, 0), Link(1, 1.0, 1000.0, 1), Link(2, 1000.0, 0.0, 2)];
            && Usable(ls) && Possible(ls, 48.0) && forall k :: !Accepted(ls, k, 48.0)
  {
    var a, b, c := Link(0, 1.0, 0.0, 0), Link(1, 1.0, 1000.0, 1), Link(2, 1000.0, 0.0, 2);
    var ls := [a, b, c];
    var shares := [0.0, 0.0, 1.0];
    SumOfThree(0.0, 0.0, 1.0);
    assert Finish(c, 1.0, 48.0) == 0.048;
    assert Division(shares, ls) && DoneBy(shares, ls, 48.0, DEADLINE);
    forall k: nat ensures !Accepted(ls, k, 48.0) {
      TimesOfThree(a, b, c);
      assert ls[..1] == [a] && ls[..2] == [a, b] && ls[..3] == ls;
      if k == 2 || k == 3 {
        assert ls[..k][1] == b;
      }
    }
  }

  lemma SumOfThree(a: real, b: real, c: real)
    ensures Sum([a, b, c]) == a + b + c
  {
    assert [a, b, c][..2] == [a, b] && [a, b][..1] == [a] && [a][..0] == [];
    assert Sum([a]) == a && Sum([a, b]) == a + b;
  }

  lemma QuotientBound(a: real, b: real, c: real)
    requires b > 0.0 && a < c * b
    ensures a / b < c
  {
    Quotient(a, b);
    if a / b >= c {
      ScaleUp(c, a / b, b);
    }
  }

  lemma ScaleUp(a: real, b: real, r: real)
    requires a <= b && r > 0.0
    ensures a * r <= b * r
  {
  }

  lemma OneMore(ls: seq<Link>, l: Link)
    ensures Rate(ls + [l]) == Rate(ls) + l.throughput
    ensures Waiting(ls + [l]) == Waiting(ls) + l.delay * l.throughput
  {
    assert (ls + [l])[..|ls|] == ls;
  }

  lemma TimeIs(ls: seq<Link>, bits: real, work: real, rate: real)
    requires ls != [] && Usable(ls) && rate == Rate(ls) > 0.0 && work == bits + Waiting(ls)
    ensures Time(ls, bits) == work / rate
  {
  }

  lemma FiguresOfThree(a: Link, b: Link, c: Link)
    requires a == Link(0, 1.0, 0.0, 0) && b == Link(1, 1.0, 1000.0, 1) && c == Link(2, 1000.0, 0.0, 2)
    ensures Rate([a]) == 1.0 && Waiting([a]) == 0.0
    ensures Rate([a, b]) == 2.0 && Waiting([a, b]) == 1000.0
    ensures Rate([a, b, c]) == 1002.0 && Waiting([a, b, c]) == 1000.0
  {
    OneMore([], a);
    OneMore([a], b);
    OneMore([a, b], c);
    assert [] + [a] == [a] && [a] + [b] == [a, b] && [a, b] + [c] == [a, b, c];
  }

  lemma TimesOfThree(a: Link, b: Link, c: Link)
    requires a == Link(0, 1.0, 0.0, 0) && b == Link(1, 1.0, 1000.0, 1) && c == Link(2, 1000.0, 0.0, 2)
    ensures Usable([a]) && Time([a], 48.0) > DEADLINE
    ensures Usable([a, b]) && Time([a, b], 48.0) < b.delay
    ensures Usable([a, b, c]) && Time([a, b, c], 48.0) < b.delay
  {
    FiguresOfThree(a, b, c);
    TimeIs([a], 48.0, 48.0, 1.0);
    TimeIs([a, b], 48.0, 1048.0, 2.0);
    TimeIs([a, b, c], 48.0, 1048.0, 1002.0);
    QuotientBound(1048.0, 1002.0, 1000.0);
  }

  // ---------------------------------------------------------------------------------------------
  // The computation
  // ---------------------------------------------------------------------------------------------

  /** Delay in seconds: the Xn delay, the whole milliseconds until the link wakes up, and the queue. */
  function LinkOf(m: Metrics, now: nat): Link
    requires m.throughput > 0.0
  {
    var drx := if m.drxWake > 0 && m.drxWake > now then ((m.drxWake - now) / 1000) as real else 0.0;
    Link(m.id, m.throughput, (m.xnDelayMs + drx) / 1000.0 + (m.queueSize * 8) as real / m.throughput, m.priority)
  }

  /** Links without throughput are skipped. */
  function Collected(ms: seq<Metrics>, now: nat): (ls: seq<Link>)
    ensures Usable(ls)
  {
    if ms == [] then []
    else
      var rest, m := Collected(ms[..|ms| - 1], now), ms[|ms| - 1];
      if m.throughput <= 0.0 then rest else rest + [LinkOf(m, now)]
  }

  predicate ByPriority(ls: seq<Link>) {
    forall i, j :: 0 <= i < j < |ls| ==> ls[i].priority <= ls[j].priority
  }

  lemma InsertOrdered(ls: seq<Link>, i: nat, l: Link)
    requires ByPriority(ls) && i <= |ls|
    requires i > 0 ==> ls[i - 1].priority <= l.priority
    requires forall j :: i <= j < |ls| ==> ls[j].priority > l.priority
    ensures ByPriority(ls[..i] + [l] + ls[i..])
  {
    var res := ls[..i] + [l] + ls[i..];
    forall a, b | 0 <= a < b < |res| ensures res[a].priority <= res[b].priority {
      assert a < i ==> res[a] == ls[a] && ls[a].priority <= l.priority;
      assert b > i ==> res[b] == ls[b - 1];
      assert a > i ==> res[a] == ls[a - 1];
    }
  }

  // ---------------------------------------------------------------------------------------------
  // What a result means for the links' own figures
  // ---------------------------------------------------------------------------------------------

  /** The whole milliseconds until the link wakes up; times are microseconds. */
  function WakeMs(m: Metrics, now: nat): nat {
    if m.drxWake > now then (m.drxWake - now) / 1000 else 0
  }

  /** When the link can start to send, in seconds. */
  function Start(m: Metrics, now: nat): real {
    (m.xnDelayMs + WakeMs(m, now) as real) / 1000.0
  }

  /** From its start to `t` the link sends exactly its queue and then its share of the frame. */
  predicate SendsBy(m: Metrics, now: nat, t: real, share: real, bits: real) {
    (t - Start(m, now)) * m.throughput == 8.0 * m.queueSize as real + share * bits
  }

  /** All of the links send their queues and their shares of the whole frame by just `t`. */
  ghost predicate AllSendBy(ms: seq<Metrics>, now: nat, t: real, shares: seq<real>, bits: real) {
    && |shares| == |ms| && Sum(shares) == 1.0
    && forall i :: 0 <= i < |ms| ==> shares[i] >= 0.0 && SendsBy(ms[i], now, t, shares[i], bits)
  }

  /** The links can do so by the deadline. */
  ghost predicate Together(ms: seq<Metrics>, now: nat, bits: real) {
    ms != [] && exists t: real, shares :: t <= DEADLINE && AllSendBy(ms, now, t, shares, bits)
  }

  /** `order` are the figures that the links were made of. */
  ghost predicate Sources(ls: seq<Link>, order: seq<Metrics>, now: nat) {
    && |ls| == |order|
    && forall i :: 0 <= i < |ls| ==> order[i].throughput > 0.0 && ls[i] == LinkOf(order[i], now)
  }

  lemma QueueTime(room: real, start: real, queue: real, rate: real, t: real)
    requires rate > 0.0 && room == (t - (start + queue / rate)) * rate
    ensures room == (t - start) * rate - queue
  {
    var q := queue / rate;
    Quotient(queue, rate);
    assert q * rate == queue;
    Distribute(rate, t - start, -q);
  }

  lemma DelayIs(m: Metrics, now: nat)
    requires m.throughput > 0.0
    ensures LinkOf(m, now).delay == Start(m, now) + (8.0 * m.queueSize as real) / m.throughput
  {
    assert (m.queueSize * 8) as real == 8.0 * m.queueSize as real;
  }

  /** A link's room at `t` is its share exactly if it sends its queue and the share by `t`. */
  lemma SendsIffRoom(m: Metrics, now: nat, t: real, share: real, bits: real)
    requires m.throughput > 0.0
    ensures SendsBy(m, now, t, share, bits) <==> Room(LinkOf(m, now), t) == share * bits
  {
    DelayIs(m, now);
    QueueTime(Room(LinkOf(m, now), t), Start(m, now), 8.0 * m.queueSize as real, m.throughput, t);
  }

  lemma {:induction false} SharesAreCapacity(ls: seq<Link>, shares: seq<real>, bits: real, t: real)
    requires |shares| == |ls| && forall i :: 0 <= i < |ls| ==> Room(ls[i], t) == shares[i] * bits
    ensures Capacity(ls, t) == Sum(shares) * bits
  {
    if ls != [] {
      var k := |ls| - 1;
      SharesAreCapacity(ls[..k], shares[..k], bits, t);
      Distribute(bits, Sum(shares[..k]), shares[k]);
    }
  }

  lemma ProductNonNegative(a: real, b: real)
    requires b > 0.0 && a * b >= 0.0
    ensures a >= 0.0
  {
    if a < 0.0 {
      ScaleStrict(a, 0.0, b);
    }
  }

  /** If all links send their shares by just `t`, then `t` is their common time and reaches all of them. */
  lemma CommonTime(ls: seq<Link>, shares: seq<real>, bits: real, t: real)
    requires ls != [] && Usable(ls) && bits > 0.0 && |shares| == |ls| && Sum(shares) == 1.0
    requires forall i :: 0 <= i < |ls| ==> shares[i] >= 0.0 && Room(ls[i], t) == shares[i] * bits
    ensures t == Time(ls, bits) && Reachable(ls, t)
  {
    SharesAreCapacity(ls, shares, bits, t);
    TimeDelivers(ls, bits);
    CapacityIncreases(ls, t, Time(ls, bits));
    CapacityIncreases(ls, Time(ls, bits), t);
    forall i | 0 <= i < |ls| ensures ls[i].delay <= t {
      ScaleNonNegative(shares[i], bits);
      ProductNonNegative(t - ls[i].delay, ls[i].throughput);
    }
  }

  lemma SplitIsRoom(ls: seq<Link>, bits: real, t: real, i: nat)
    requires bits > 0.0 && i < |ls|
    ensures Splits(ls, bits, t)[i] * bits == Room(ls[i], t)
  {
    Quotient(Room(ls[i], t), bits);
  }

  lemma SplitSends(m: Metrics, now: nat, t: real, share: real, bits: real)
    requires m.throughput > 0.0 && share * bits == Room(LinkOf(m, now), t)
    ensures SendsBy(m, now, t, share, bits)
  {
    SendsIffRoom(m, now, t, share, bits);
  }

  lemma AcceptedSends(ls: seq<Link>, order: seq<Metrics>, now: nat, bits: real)
    requires ls != [] && Usable(ls) && bits > 0.0 && Sources(ls, order, now) && Reachable(ls, Time(ls, bits))
    ensures AllSendBy(order, now, Time(ls, bits), Splits(ls, bits, Time(ls, bits)), bits)
  {
    var t := Time(ls, bits);
    SplitsDivide(ls, bits);
    var shares := Splits(ls, bits, t);
    forall i | 0 <= i < |ls| ensures SendsBy(order[i], now, t, shares[i], bits) {
      SplitIsRoom(ls, bits, t, i);
      SplitSends(order[i], now, t, shares[i], bits);
    }
  }

  /** A prefix is accepted exactly if its links can send their queues and the frame together by the deadline. */
  lemma AcceptedIffTogether(ls: seq<Link>, order: seq<Metrics>, now: nat, k: nat, bits: real)
    requires Usable(ls) && bits > 0.0 && Sources(ls, order, now) && 0 < k <= |ls|
    ensures Accepted(ls, k, bits) <==> Together(order[..k], now, bits)
  {
    PrefixUsable(ls, k);
    assert Sources(ls[..k], order[..k], now);
    if Accepted(ls, k, bits) {
      AcceptedSends(ls[..k], order[..k], now, bits);
    }
    if Together(order[..k], now, bits) {
      var t: real, shares :| t <= DEADLINE && AllSendBy(order[..k], now, t, shares, bits);
      forall i | 0 <= i < k ensures Room(ls[..k][i], t) == shares[i] * bits {
        SendsIffRoom(order[i], now, t, shares[i], bits);
      }
      CommonTime(ls[..k], shares, bits, t);
    }
  }

  /** The figures of links with throughput. */
  function WithThroughput(ms: seq<Metrics>): seq<Metrics> {
    if ms == [] then []
    else
      var rest, m := WithThroughput(ms[..|ms| - 1]), ms[|ms| - 1];
      if m.throughput <= 0.0 then rest else rest + [m]
  }

  lemma {:induction false} CollectedSources(ms: seq<Metrics>, now: nat)
    ensures Sources(Collected(ms, now), WithThroughput(ms), now)
  {
    if ms != [] {
      CollectedSources(ms[..|ms| - 1], now);
    }
  }

  lemma InsertSources(ls: seq<Link>, order: seq<Metrics>, now: nat, i: nat, l: Link, m: Metrics)
    requires Sources(ls, order, now) && i <= |ls| && m.throughput > 0.0 && l == LinkOf(m, now)
    ensures Sources(ls[..i] + [l] + ls[i..], order[..i] + [m] + order[i..], now)
    ensures multiset(order[..i] + [m] + order[i..]) == multiset(order) + multiset{m}
  {
    assert order == order[..i] + order[i..];
  }

  method Insert(ls: seq<Link>, l: Link, ghost order: seq<Metrics>, ghost m: Metrics, ghost now: nat)
    returns (res: seq<Link>, ghost order': seq<Metrics>)
    requires ByPriority(ls) && Sources(ls, order, now) && m.throughput > 0.0 && l == LinkOf(m, now)
    ensures ByPriority(res) && multiset(res) == multiset(ls) + multiset{l}
    ensures Sources(res, order', now) && multiset(order') == multiset(order) + multiset{m}
  {
    var i := Position(ls, l);
    res, order' := ls[..i] + [l] + ls[i..], order[..i] + [m] + order[i..];
    assert ls[..i] + ls[i..] == ls;
    InsertOrdered(ls, i, l);
    InsertSources(ls, order, now, i, l, m);
  }

  method Position(ls: seq<Link>, l: Link) returns (i: nat)
    requires ByPriority(ls)
    ensures i <= |ls| && (i > 0 ==> ls[i - 1].priority <= l.priority)
    ensures forall j :: i <= j < |ls| ==> ls[j].priority > l.priority
  {
    i := |ls|;
    while i > 0 && ls[i - 1].priority > l.priority
      invariant 0 <= i <= |ls|
      invariant forall j :: i <= j < |ls| ==> ls[j].priority > l.priority
    {
      i := i - 1;
    }
  }

  /** `std::sort` by priority; which of two links of equal priority comes first is left open by the source. */
  method SortByPriority(ls: seq<Link>, ghost sources: seq<Metrics>, ghost now: nat)
    returns (res: seq<Link>, ghost order: seq<Metrics>)
    requires Sources(ls, sources, now)
    ensures ByPriority(res) && multiset(res) == multiset(ls)
    ensures Sources(res, order, now) && multiset(order) == multiset(sources)
  {
    res, order := [], [];
    for i := 0 to |ls|
      invariant ByPriority(res) && multiset(res) == multiset(ls[..i])
      invariant Sources(res, order, now) && multiset(order) == multiset(sources[..i])
    {
      assert ls[..i + 1] == ls[..i] + [ls[i]] && sources[..i + 1] == sources[..i] + [sources[i]];
      res, order := Insert(res, ls[i], order, sources[i], now);
    }
    assert ls[..|ls|] == ls && sources[..|ls|] == sources;
  }

  method Collect(ms: seq<Metrics>, now: nat) returns (ls: seq<Link>)
    ensures ls == Collected(ms, now)
  {
    ls := [];
    for i := 0 to |ms|
      invariant ls == Collected(ms[..i], now)
    {
      assert ms[..i + 1][..i] == ms[..i];
      if !(ms[i].throughput <= 0.0) {
        ls := ls + [LinkOf(ms[i], now)];
      }
    }
    assert ms[..|ms|] == ms;
  }

  /** The first inner loop: sums over the first `k` links. */
  method Totals(ls: seq<Link>, k: nat) returns (rate: real, waiting: real)
    requires k <= |ls|
    ensures rate == Rate(ls[..k]) && waiting == Waiting(ls[..k])
  {
    rate, waiting := 0.0, 0.0;
    for i := 0 to k
      invariant rate == Rate(ls[..i]) && waiting == Waiting(ls[..i])
    {
      assert ls[..i + 1][..i] == ls[..i];
      rate := rate + ls[i].throughput;
      waiting := waiting + ls[i].delay * ls[i].throughput;
    }
  }

  function SplitOf(l: Link, t: real, bits: real): real
    requires bits > 0.0
  {
    var late := t - l.delay;
    (if late > 0.0 then late else 0.0) * l.throughput / bits
  }

  lemma SplitIs(l: Link, t: real, bits: real)
    requires bits > 0.0 && l.throughput > 0.0
    ensures SplitOf(l, t, bits) >= 0.0
    ensures l.delay <= t ==> SplitOf(l, t, bits) == Ratio(Room(l, t), bits)
  {
    var late := t - l.delay;
    RatioNonNegative((if late > 0.0 then late else 0.0) * l.throughput, bits);
  }

  /** The second inner loop: the split of each link, until one cannot be reached by `t`. */
  method TrySplits(ls: seq<Link>, k: nat, t: real, bits: real)
    returns (feasible: bool, splits: seq<real>, total: real)
    requires Usable(ls) && k <= |ls| && bits > 0.0
    ensures feasible <==> Reachable(ls[..k], t)
    ensures feasible ==> splits == Splits(ls[..k], bits, t) && total == Sum(splits)
  {
    feasible, splits, total := true, [], 0.0;
    for i := 0 to k
      invariant feasible && Reachable(ls[..i], t)
      invariant splits == Splits(ls[..i], bits, t) && total == Sum(splits)
    {
      assert ls[..i + 1][..i] == ls[..i];
      var split := SplitOf(ls[i], t, bits);
      SplitIs(ls[i], t, bits);
      if split < 0.0 || t < ls[i].delay {
        assert ls[..k][i] == ls[i];
        feasible := false;
        return;
      }
      assert (splits + [split])[..i] == splits;
      splits := splits + [split];
      total := total + split;
    }
  }

  function Ids(ls: seq<Link>): (ids: seq<nat>)
    ensures |ids| == |ls| && forall i :: 0 <= i < |ls| ==> ids[i] == ls[i].id
  {
    if ls == [] then [] else Ids(ls[..|ls| - 1]) + [ls[|ls| - 1].id]
  }

  /** One turn of the loop: whether the first `k` links are accepted, with their time and splits. */
  method TryPrefix(links: seq<Link>, k: nat, bits: real) returns (ok: bool, t: real, splits: seq<real>)
    requires Usable(links) && 0 < k <= |links| && bits > 0.0
    ensures ok <==> Accepted(links, k, bits)
    ensures ok ==> Usable(links[..k]) && t == Time(links[..k], bits) && splits == Splits(links[..k], bits, t)
  {
    PrefixUsable(links, k);
    RatePositive(links[..k]);
    var rate, waiting := Totals(links, k);
    t := (bits + waiting) / rate;
    assert t == Time(links[..k], bits);
    var feasible, total;
    feasible, splits, total := TrySplits(links, k, t, bits);
    if feasible {
      SplitsDivide(links[..k], bits);
      var off := if total - 1.0 >= 0.0 then total - 1.0 else 1.0 - total;
      if off > 0.001 {
        feasible := false;
      }
    }
    ok := feasible && t <= DEADLINE;
  }

  /**
   `calculate_delivery_time` for a frame of `frameSize` bytes. `ls` is the order the sort left, made of the figures
   `order`. The result is that of the first accepted prefix, and there is none exactly if no prefix is accepted.
   In terms of the figures: the first links by priority that can all send their queues and their shares by one time
   within the deadline, with that time and those shares, and none exactly if no first links can.
  */
  method CalculateDeliveryTime(ms: seq<Metrics>, now: nat, frameSize: nat)
    returns (res: Option<Allocation>, ls: seq<Link>, ghost order: seq<Metrics>)
    requires frameSize > 0
    ensures multiset(order) == multiset(WithThroughput(ms))
    ensures forall i, j :: 0 <= i < j < |order| ==> order[i].priority <= order[j].priority
    ensures res.None? ==> forall k :: 0 < k <= |order| ==> !Together(order[..k], now, Bits(frameSize))
    ensures res.Some? ==>
              var k := |res.value.links|;
              && 0 < k <= |order| && (forall i :: 0 <= i < k ==> res.value.links[i] == order[i].id)
              && res.value.time <= DEADLINE
              && AllSendBy(order[..k], now, res.value.time, res.value.splits, Bits(frameSize))
              && forall i :: 0 < i < k ==> !Together(order[..i], now, Bits(frameSize))
    ensures ByPriority(ls) && multiset(ls) == multiset(Collected(ms, now)) && Usable(ls)
    ensures res.None? <==> forall k :: !Accepted(ls, k, Bits(frameSize))
    ensures res.Some? ==>
              var k, bits := |res.value.links|, Bits(frameSize);
              && Accepted(ls, k, bits)
              && (forall i :: 0 < i < k ==> !Accepted(ls, i, bits))
              && res.value.links == Ids(ls[..k])
              && res.value.time == Time(ls[..k], bits)
              && res.value.splits == Splits(ls[..k], bits, res.value.time)
  {
    var collected := Collect(ms, now);
    CollectedSources(ms, now);
    var links;
    links, order := SortByPriority(collected, WithThroughput(ms), now);
    SortedUsable(collected, links);
    ls := links;
    var bits := Bits(frameSize);
    for k := 1 to |links| + 1
      invariant forall i :: 0 < i < k ==> !Accepted(links, i, bits)
      invariant forall i :: 0 < i < k ==> !Together(order[..i], now, bits)
    {
      AcceptedIffTogether(links, order, now, k, bits);
      var ok, t, splits := TryPrefix(links, k, bits);
      if ok {
        assert Sources(links[..k], order[..k], now);
        AcceptedSends(links[..k], order[..k], now, bits);
        return Some(Allocation(Ids(links[..k]), splits, t)), ls, order;
      }
    }
    res := None;
  }

  lemma SortedUsable(a: seq<Link>, b: seq<Link>)
    requires Usable(a) && multiset(a) == multiset(b)
    ensures Usable(b)
  {
    forall i | 0 <= i < |b| ensures b[i].throughput > 0.0 {
      assert b[i] in multiset(b);
      assert b[i] in multiset(a);
    }
  }
}
