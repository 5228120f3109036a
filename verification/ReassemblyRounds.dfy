/**
 How often a set of numbered segments is complete, when they arrive in any order, with repeats, and what has been
 collected may be lost in between.
*/
module ReassemblyRounds {

  /** A segment arrives, or what was collected is lost. */
  datatype Act = Seg(i: nat) | Lost

  function All(n: nat): (all: set<nat>)
    ensures forall i: nat :: i in all <==> i < n
  {
    if n == 0 then {} else All(n - 1) + {n - 1}
  }

  predicate InRange(acts: seq<Act>, n: nat) {
    forall k :: 0 <= k < |acts| && acts[k].Seg? ==> acts[k].i < n
  }

  lemma {:induction false} AllSize(n: nat)
    ensures |All(n)| == n
  {
    if n > 0 {
      AllSize(n - 1);
    }
  }

  lemma {:induction false} SubsetSize(a: set<nat>, b: set<nat>)
    requires a <= b
    ensures |a| <= |b| && (|a| == |b| <==> a == b)
  {
    if a == {} {
    } else {
      var x :| x in a;
      SubsetSize(a - {x}, b - {x});
      assert a == (a - {x}) + {x} && b == (b - {x}) + {x};
    }
  }

  /** The segments collected so far; when all `n` are there, the packet is handed on and the collection starts over. */
  function Have(acts: seq<Act>, n: nat): set<nat> {
    if acts == [] then {}
    else
      match acts[|acts| - 1]
      case Lost => {}
      case Seg(i) =>
        var r := Have(acts[..|acts| - 1], n) + {i};
        if r == All(n) then {} else r
  }

  /** The last act is the arrival of the last missing segment. */
  predicate Completes(acts: seq<Act>, n: nat) {
    && acts != [] && acts[|acts| - 1].Seg?
    && Have(acts[..|acts| - 1], n) + {acts[|acts| - 1].i} == All(n)
  }

  function Times(acts: seq<Act>, n: nat): nat {
    if acts == [] then 0 else Times(acts[..|acts| - 1], n) + if Completes(acts, n) then 1 else 0
  }

  /** From `a` to `b` every segment arrives and nothing is lost. */
  ghost predicate Window(acts: seq<Act>, n: nat, a: nat, b: nat) {
    && a <= b <= |acts|
    && (forall k :: a <= k < b ==> acts[k].Seg?)
    && forall i: nat :: i < n ==> Seg(i) in acts[a..b]
  }

  ghost predicate OneWindow(acts: seq<Act>, n: nat) {
    exists a, b :: Window(acts, n, a, b)
  }

  ghost predicate TwoWindows(acts: seq<Act>, n: nat) {
    exists a, b, c, d :: Window(acts, n, a, b) && Window(acts, n, c, d) && b <= c
  }

  lemma {:induction false} HaveIsPartial(acts: seq<Act>, n: nat)
    requires n > 0 && InRange(acts, n)
    ensures Have(acts, n) < All(n)
  {
    assert 0 in All(n);
    if acts != [] {
      HaveIsPartial(acts[..|acts| - 1], n);
    }
  }

  /** Where the present collection started. */
  function Since(acts: seq<Act>, n: nat): (k: nat)
    ensures k <= |acts|
  {
    if acts == [] then 0
    else if acts[|acts| - 1].Lost? || Completes(acts, n) then |acts|
    else Since(acts[..|acts| - 1], n)
  }

  lemma {:induction false} HaveSince(acts: seq<Act>, n: nat)
    ensures forall k :: Since(acts, n) <= k < |acts| ==> acts[k].Seg?
    ensures forall i :: i in Have(acts, n) ==> Seg(i) in acts[Since(acts, n)..]
  {
    if acts != [] && acts[|acts| - 1].Seg? && !Completes(acts, n) {
      var k := |acts| - 1;
      HaveSince(acts[..k], n);
      var a := Since(acts[..k], n);
      assert acts[a..] == acts[..k][a..] + [acts[k]];
    }
  }

  lemma {:induction false} SinceGrows(acts: seq<Act>, n: nat, j: nat)
    requires j <= |acts|
    ensures Since(acts[..j], n) <= Since(acts, n)
  {
    if j == |acts| {
      assert acts[..j] == acts;
    } else {
      var k := |acts| - 1;
      assert acts[..k][..j] == acts[..j];
      SinceGrows(acts[..k], n, j);
    }
  }

  /** The acts since the collection started, up to one that completes it, bring every segment. */
  lemma CompletionEndsWindow(acts: seq<Act>, n: nat, k: nat)
    requires 0 < k <= |acts| && Completes(acts[..k], n)
    ensures Window(acts, n, Since(acts[..k - 1], n), k)
  {
    var before, a := acts[..k - 1], Since(acts[..k - 1], n);
    assert acts[..k][..k - 1] == before && acts[..k][k - 1] == acts[k - 1];
    HaveSince(before, n);
    assert acts[a..k] == before[a..] + [acts[k - 1]];
    forall i: nat | i < n ensures Seg(i) in acts[a..k] {
      assert i in All(n);
      assert i in Have(before, n) || i == acts[k - 1].i;
    }
    forall j | a <= j < k ensures acts[j].Seg? {
      assert j < k - 1 ==> before[j] == acts[j];
    }
  }

  lemma TimesNext(acts: seq<Act>, n: nat, k: nat)
    requires 0 < k <= |acts|
    ensures Times(acts[..k], n) == Times(acts[..k - 1], n) + if Completes(acts[..k], n) then 1 else 0
  {
    assert acts[..k][..k - 1] == acts[..k - 1];
  }

  lemma {:induction false} TimesGrow(acts: seq<Act>, n: nat, a: nat, b: nat)
    requires a <= b <= |acts|
    ensures Times(acts[..a], n) <= Times(acts[..b], n)
  {
    if a < b {
      TimesGrow(acts, n, a, b - 1);
      TimesNext(acts, n, b);
    }
  }

  /** As long as nothing is complete or lost, everything that arrives is collected. */
  lemma {:induction false} Collected(acts: seq<Act>, n: nat, a: nat, b: nat)
    requires a <= b <= |acts| && forall k :: a <= k < b ==> acts[k].Seg?
    requires Times(acts[..a], n) == Times(acts[..b], n)
    ensures forall i :: Seg(i) in acts[a..b] ==> i in Have(acts[..b], n)
  {
    if a < b {
      TimesGrow(acts, n, a, b - 1);
      TimesNext(acts, n, b);
      Collected(acts, n, a, b - 1);
      assert acts[..b][..b - 1] == acts[..b - 1];
      assert acts[a..b] == acts[a..b - 1] + [acts[b - 1]];
    }
  }

  lemma WindowCompletes(acts: seq<Act>, n: nat, a: nat, b: nat)
    requires n > 0 && InRange(acts, n) && Window(acts, n, a, b)
    ensures Times(acts[..a], n) < Times(acts[..b], n)
  {
    TimesGrow(acts, n, a, b);
    if Times(acts[..a], n) == Times(acts[..b], n) {
      AllCollected(acts, n, a, b);
      HaveIsPartial(acts[..b], n);
      assert false;
    }
  }

  lemma AllCollected(acts: seq<Act>, n: nat, a: nat, b: nat)
    requires Window(acts, n, a, b) && Times(acts[..a], n) == Times(acts[..b], n)
    ensures All(n) <= Have(acts[..b], n)
  {
    Collected(acts, n, a, b);
  }

  /** The act at which the packet is complete for the `v`-th time. */
  lemma Reaches(acts: seq<Act>, n: nat, v: nat) returns (k: nat)
    requires 0 < v <= Times(acts, n)
    ensures 0 < k <= |acts| && Completes(acts[..k], n)
    ensures Times(acts[..k], n) == v && Times(acts[..k - 1], n) == v - 1
  {
    k := |acts|;
    assert acts[..|acts|] == acts;
    while k > 0 && Times(acts[..k - 1], n) >= v
      invariant 0 <= k <= |acts| && Times(acts[..k], n) >= v
      decreases k
    {
      k := k - 1;
    }
    TimesNext(acts, n, k);
  }

  /** The packet is complete at least once exactly if there is a window with every segment. */
  lemma OnceIff(acts: seq<Act>, n: nat)
    requires n > 0 && InRange(acts, n)
    ensures Times(acts, n) >= 1 <==> OneWindow(acts, n)
  {
    assert acts[..|acts|] == acts;
    if Times(acts, n) >= 1 {
      var k := Reaches(acts, n, 1);
      CompletionEndsWindow(acts, n, k);
    }
    if OneWindow(acts, n) {
      var a, b :| Window(acts, n, a, b);
      WindowCompletes(acts, n, a, b);
      TimesGrow(acts, n, b, |acts|);
    }
  }

  /** And more than once exactly if there are two such windows, one after the other. */
  lemma TwiceIff(acts: seq<Act>, n: nat)
    requires n > 0 && InRange(acts, n)
    ensures Times(acts, n) >= 2 <==> TwoWindows(acts, n)
  {
    assert acts[..|acts|] == acts;
    if Times(acts, n) >= 2 {
      var k := Reaches(acts, n, 1);
      var j := Reaches(acts, n, 2);
      if j <= k {
        TimesGrow(acts, n, j, k);
        assert false;
      }
      CompletionEndsWindow(acts, n, k);
      CompletionEndsWindow(acts, n, j);
      SinceCompletion(acts, n, k, j - 1);
    }
    if TwoWindows(acts, n) {
      var a, b, c, d :| Window(acts, n, a, b) && Window(acts, n, c, d) && b <= c;
      WindowCompletes(acts, n, a, b);
      WindowCompletes(acts, n, c, d);
      TimesGrow(acts, n, b, c);
      TimesGrow(acts, n, d, |acts|);
    }
  }

  lemma SinceCompletion(acts: seq<Act>, n: nat, k: nat, j: nat)
    requires 0 < k <= j <= |acts| && Completes(acts[..k], n)
    ensures k <= Since(acts[..j], n)
  {
    assert acts[..j][..k] == acts[..k];
    SinceGrows(acts[..j], n, k);
  }

  /** Exactly once: some window has every segment, and no two windows after each other do. */
  lemma ExactlyOnceIff(acts: seq<Act>, n: nat)
    requires n > 0 && InRange(acts, n)
    ensures Times(acts, n) == 1 <==> OneWindow(acts, n) && !TwoWindows(acts, n)
  {
    OnceIff(acts, n);
    TwiceIff(acts, n);
  }
}
