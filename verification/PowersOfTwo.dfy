/** Powers of two, and the bit tricks the queues use to round sizes and wrap indices. */
module PowersOfTwo {

  function Pow2(k: nat): (r: nat)
    ensures r >= 1
  {
    if k == 0 then 1 else 2 * Pow2(k - 1)
  }

  /** `size_t` holds 64 bits. */
  const WORD := 0x1_0000_0000_0000_0000

  lemma WordIsPow2()
    ensures WORD == Pow2(64)
  {
    assert Pow2(8) == 256;
    Pow2Add(8, 8);
    Pow2Add(16, 16);
    Pow2Add(32, 32);
  }

  lemma {:induction false} Pow2Add(a: nat, b: nat)
    ensures Pow2(a + b) == Pow2(a) * Pow2(b)
  {
    if a > 0 {
      Pow2Add(a - 1, b);
    }
  }

  lemma {:induction false} Pow2Monotone(a: nat, b: nat)
    requires a <= b
    ensures Pow2(a) <= Pow2(b)
    ensures a < b ==> 2 * Pow2(a) <= Pow2(b)
  {
    if a < b {
      Pow2Monotone(a, b - 1);
    }
  }

  predicate IsPow2(x: nat) {
    x == 1 || (x >= 2 && x % 2 == 0 && IsPow2(x / 2))
  }

  lemma {:induction false} Log2(x: nat) returns (k: nat)
    requires IsPow2(x)
    ensures x == Pow2(k)
  {
    if x == 1 {
      k := 0;
    } else {
      k := Log2(x / 2);
      k := k + 1;
    }
  }

  lemma {:induction false} Pow2IsPow2(k: nat)
    ensures IsPow2(Pow2(k))
  {
    if k > 0 {
      Pow2IsPow2(k - 1);
    }
  }

  // ---------------------------------------------------------------------------------------------
  // Bitwise operators on naturals
  // ---------------------------------------------------------------------------------------------

  function Or(a: nat, b: nat): nat
    decreases a + b
  {
    if a == 0 then b else if b == 0 then a
    else 2 * Or(a / 2, b / 2) + (if a % 2 == 1 || b % 2 == 1 then 1 else 0)
  }

  function And(a: nat, b: nat): nat
    decreases a + b
  {
    if a == 0 || b == 0 then 0
    else 2 * And(a / 2, b / 2) + (if a % 2 == 1 && b % 2 == 1 then 1 else 0)
  }

  function Shr(x: nat, t: nat): nat {
    if t == 0 then x else Shr(x / 2, t - 1)
  }

  lemma {:induction false} OrAtLeast(a: nat, b: nat)
    ensures Or(a, b) >= a && Or(a, b) >= b
    decreases a + b
  {
    if a != 0 && b != 0 {
      OrAtLeast(a / 2, b / 2);
    }
  }

  lemma {:induction false} OrBelow(a: nat, b: nat, k: nat)
    requires a < Pow2(k) && b < Pow2(k)
    ensures Or(a, b) < Pow2(k)
    decreases k
  {
    if a != 0 && b != 0 {
      OrBelow(a / 2, b / 2, k - 1);
    }
  }

  /** Or-ing into the low bits leaves the high part alone and fills at least what is or-ed in. */
  lemma {:induction false} OrLow(hi: nat, lo: nat, y: nat, p: nat)
    requires lo < Pow2(p) && y < Pow2(p)
    ensures Or(hi * Pow2(p) + lo, y) >= hi * Pow2(p) + y
    decreases p
  {
    if p == 0 || y == 0 {
      assert y == 0;
    } else {
      var q := Pow2(p - 1);
      var a := hi * Pow2(p) + lo;
      assert hi * Pow2(p) == 2 * (hi * q);
      assert a / 2 == hi * q + lo / 2;
      OrLow(hi, lo / 2, y / 2, p - 1);
      if a == 0 {
        assert hi * Pow2(p) == 0;
      }
    }
  }

  // ---------------------------------------------------------------------------------------------
  // Rounding up
  // ---------------------------------------------------------------------------------------------

  /** `x |= x >> t`. */
  function Smear(x: nat, t: nat): nat {
    Or(x, Shr(x, t))
  }

  /** The shifts by `t`, `2 * t`, ... up to 32. */
  function SmearFrom(x: nat, t: nat): nat
    requires t >= 1
    decreases 64 - t
  {
    if t > 32 then x else SmearFrom(Smear(x, t), 2 * t)
  }

  /** The shifts by 1, 2, 4 and then by 8, 16, 32. */
  function SmearAll(x: nat): nat {
    SmearFrom(x, 1)
  }

  /** `ceilToPow2` on 64-bit words, with the wrap of `--x` and `++x`. */
  function CeilToPow2(x: nat): nat
    requires x < WORD
  {
    (SmearAll((x + WORD - 1) % WORD) + 1) % WORD
  }

  /** `x` has `k + 1` bits, and at least the top `t` of them are ones. */
  predicate TopOnes(x: nat, k: nat, t: nat) {
    && Pow2(k) <= x < Pow2(k + 1)
    && (t > k ==> x == Pow2(k + 1) - 1)
    && (t <= k ==> x >= Pow2(k + 1) - Pow2(k + 1 - t))
  }

  lemma {:induction false} ShrAtLeast(x: nat, t: nat, y: int)
    requires x >= Pow2(t) * y
    ensures Shr(x, t) >= y
    decreases t
  {
    if t > 0 {
      assert Pow2(t) * y == 2 * (Pow2(t - 1) * y);
      ShrAtLeast(x / 2, t - 1, y);
    }
  }

  lemma {:induction false} ShrBelow(x: nat, t: nat, y: int)
    requires x < Pow2(t) * y
    ensures Shr(x, t) < y
    decreases t
  {
    if t > 0 {
      assert Pow2(t) * y == 2 * (Pow2(t - 1) * y);
      ShrBelow(x / 2, t - 1, y);
    }
  }

  lemma {:induction false} ShrShrinks(x: nat, t: nat)
    ensures Shr(x, t) <= x
    decreases t
  {
    if t > 0 {
      ShrShrinks(x / 2, t - 1);
    }
  }

  lemma SmearDoubles(x: nat, k: nat, t: nat)
    requires TopOnes(x, k, t) && t >= 1
    ensures TopOnes(Smear(x, t), k, 2 * t)
  {
    ShrShrinks(x, t);
    OrAtLeast(x, Shr(x, t));
    OrBelow(x, Shr(x, t), k + 1);
    if t <= k {
      SmearTop(x, k, t);
    }
  }

  lemma Product(w: nat, q: nat, y: int)
    requires w >= 1
    ensures (w - 1) * q == w * q - q
    ensures w * (q - y) == w * q - w * y
  {
  }

  /** Or-ing ones shifted down by `t` into a word whose top `t` bits are ones adds them below. */
  lemma SmearReaches(x: nat, p: nat, t: nat, floor: nat)
    requires var q, w := Pow2(p), Pow2(t); w * q - q <= x < w * q && x >= w * floor && floor < q
    ensures Smear(x, t) >= Pow2(t) * Pow2(p) - Pow2(p) + floor
  {
    var q, w := Pow2(p), Pow2(t);
    Product(w, q, 0);
    ShrAtLeast(x, t, floor);
    ShrBelow(x, t, q);
    OrLow(w - 1, x - (w - 1) * q, Shr(x, t), p);
  }

  lemma SmearTop(x: nat, k: nat, t: nat)
    requires TopOnes(x, k, t) && 1 <= t <= k
    ensures 2 * t > k ==> Smear(x, t) >= Pow2(k + 1) - 1
    ensures 2 * t <= k ==> Smear(x, t) >= Pow2(k + 1) - Pow2(k + 1 - 2 * t)
  {
    var p := k + 1 - t;
    Pow2Add(t, p);
    if 2 * t <= k {
      var r := Pow2(p - t);
      Pow2Add(t, p - t);
      Product(Pow2(t), Pow2(p), r);
      SmearReaches(x, p, t, Pow2(p) - r);
    } else {
      Pow2Monotone(p, t);
      Product(Pow2(t), Pow2(p), 1);
      SmearReaches(x, p, t, Pow2(p) - 1);
    }
  }

  lemma TopBit(x: nat) returns (k: nat)
    requires x >= 1
    ensures Pow2(k) <= x < Pow2(k + 1)
  {
    k := 0;
    while x >= Pow2(k + 1)
      invariant Pow2(k) <= x
      decreases x - Pow2(k)
    {
      k := k + 1;
    }
  }

  lemma {:induction false} SmearFromFills(x: nat, k: nat, t: nat)
    requires TopOnes(x, k, t) && k < 64 && t in {1, 2, 4, 8, 16, 32, 64}
    ensures SmearFrom(x, t) == Pow2(k + 1) - 1
    decreases 64 - t
  {
    if t <= 32 {
      SmearDoubles(x, k, t);
      SmearFromFills(Smear(x, t), k, 2 * t);
    }
  }

  lemma SmearAllFills(x: nat, k: nat)
    requires Pow2(k) <= x < Pow2(k + 1) && k < 64
    ensures SmearAll(x) == Pow2(k + 1) - 1
  {
    assert Pow2(k + 1 - 1) == Pow2(k);
    SmearFromFills(x, k, 1);
  }

  /** `r` is the least power of two that is at least `x`. */
  ghost predicate IsCeilPow2(x: nat, r: nat) {
    IsPow2(r) && r >= x && forall k: nat :: Pow2(k) >= x ==> Pow2(k) >= r
  }

  lemma NextPow2IsCeil(x: nat, k: nat)
    requires Pow2(k) <= x - 1 < Pow2(k + 1)
    ensures IsCeilPow2(x, Pow2(k + 1))
  {
    Pow2IsPow2(k + 1);
    forall j: nat | Pow2(j) >= x
      ensures Pow2(j) >= Pow2(k + 1)
    {
      if j <= k {
        Pow2Monotone(j, k);
      } else {
        Pow2Monotone(k + 1, j);
      }
    }
  }

  lemma {:induction false} SmearFromZero(t: nat)
    requires t >= 1
    ensures SmearFrom(0, t) == 0
    decreases 64 - t
  {
    if t <= 32 {
      ShrShrinks(0, t);
      SmearFromZero(2 * t);
    }
  }

  lemma Decrement(x: nat)
    requires x < WORD
    ensures (x + WORD - 1) % WORD == if x == 0 then WORD - 1 else x - 1
  {
  }

  lemma CeilOfOne()
    ensures IsCeilPow2(1, CeilToPow2(1))
  {
    Decrement(1);
    SmearFromZero(1);
    assert Pow2(0) == 1;
  }

  /** In range the final increment does not wrap, so the smeared word is the mask for the rounded size. */
  lemma MaskOfRounded(x: nat, k: nat)
    requires 2 <= x <= WORD / 2 && Pow2(k) <= x - 1 < Pow2(k + 1)
    ensures Pow2(k + 1) < WORD
    ensures SmearAll((x + WORD - 1) % WORD) + 1 == CeilToPow2(x) == Pow2(k + 1)
  {
    WordIsPow2();
    if k >= 63 {
      Pow2Monotone(63, k);
    }
    Pow2Monotone(k + 1, 63);
    SmearAllFills(x - 1, k);
    Decrement(x);
  }

  lemma CeilInRange(x: nat)
    requires 2 <= x <= WORD / 2
    ensures IsCeilPow2(x, CeilToPow2(x))
  {
    var k := TopBit(x - 1);
    NextPow2IsCeil(x, k);
    MaskOfRounded(x, k);
  }

  lemma CeilOutOfRange(x: nat)
    requires x == 0 || WORD / 2 < x < WORD
    ensures CeilToPow2(x) == 0
  {
    WordIsPow2();
    Decrement(x);
    SmearAllFills(if x == 0 then WORD - 1 else x - 1, 63);
  }

  lemma MaskPlusOne(x: nat)
    requires 1 <= x <= WORD / 2
    ensures SmearAll((x + WORD - 1) % WORD) + 1 == CeilToPow2(x) < WORD
  {
    if x == 1 {
      Decrement(1);
      SmearFromZero(1);
    } else {
      var k := TopBit(x - 1);
      MaskOfRounded(x, k);
    }
  }

  /** Rounding is right exactly for 1 <= x <= 2^63; outside that range the result wraps to 0. */
  lemma CeilToPow2Correct(x: nat)
    requires x < WORD
    ensures IsCeilPow2(x, CeilToPow2(x)) <==> 1 <= x <= WORD / 2
    ensures x == 0 || x > WORD / 2 ==> CeilToPow2(x) == 0
  {
    if x == 1 {
      CeilOfOne();
    } else if 2 <= x <= WORD / 2 {
      CeilInRange(x);
    } else {
      CeilOutOfRange(x);
    }
  }

  // ---------------------------------------------------------------------------------------------
  // Wrapping indices
  // ---------------------------------------------------------------------------------------------

  lemma {:induction false} MaskBelow(x: nat, k: nat)
    requires x < Pow2(k)
    ensures And(x, Pow2(k) - 1) == x
    decreases k
  {
    if x > 0 {
      assert (Pow2(k) - 1) / 2 == Pow2(k - 1) - 1;
      MaskBelow(x / 2, k - 1);
    }
  }

  lemma {:induction false} MaskWraps(k: nat)
    ensures And(Pow2(k), Pow2(k) - 1) == 0
    decreases k
  {
    if k > 0 {
      assert (Pow2(k) - 1) / 2 == Pow2(k - 1) - 1;
      MaskWraps(k - 1);
    }
  }

  /** `(i + 1) & (size - 1)` steps to the next index and wraps at the end. */
  lemma MaskedIncrement(i: nat, k: nat)
    requires i < Pow2(k)
    ensures And(i + 1, Pow2(k) - 1) == if i + 1 == Pow2(k) then 0 else i + 1
  {
    if i + 1 == Pow2(k) {
      MaskWraps(k);
    } else {
      MaskBelow(i + 1, k);
    }
  }

  /** The remainder, by repeated subtraction. */
  function Rem(x: nat, n: nat): (r: nat)
    requires n > 0
    ensures r < n
  {
    if x < n then x else Rem(x - n, n)
  }

  lemma {:induction false} RemHalves(x: nat, q: nat)
    requires q > 0
    ensures Rem(x, 2 * q) == 2 * Rem(x / 2, q) + x % 2
  {
    if x >= 2 * q {
      RemHalves(x - 2 * q, q);
      assert (x - 2 * q) / 2 == x / 2 - q;
    }
  }

  /** Masking with `2^k - 1` takes the remainder by `2^k`. */
  lemma {:induction false} MaskIsRem(x: nat, k: nat)
    ensures And(x, Pow2(k) - 1) == Rem(x, Pow2(k))
    decreases k
  {
    if k == 0 {
      RemByOne(x);
    } else {
      RemHalves(x, Pow2(k - 1));
      MaskIsRem(x / 2, k - 1);
      assert (Pow2(k) - 1) / 2 == Pow2(k - 1) - 1;
    }
  }

  lemma {:induction false} RemByOne(x: nat)
    ensures Rem(x, 1) == 0
  {
    if x >= 1 {
      RemByOne(x - 1);
    }
  }

  lemma {:induction false} RemStep(x: nat, n: nat)
    requires n > 0
    ensures Rem(x + 1, n) == if Rem(x, n) + 1 == n then 0 else Rem(x, n) + 1
  {
    if x >= n {
      RemStep(x - n, n);
    }
  }
}
