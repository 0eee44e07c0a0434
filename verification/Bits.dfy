/** Bit operations on unbounded non-negative integers, as Python's `&`, `& ~` and
    `bit_length` compute them, with the arithmetic facts the layout rests on. */
module Bits {

  function Pow2(k: nat): (p: nat)
    ensures p > 0
  {
    if k == 0 then 1 else 2 * Pow2(k - 1)
  }

  /** `x & y`, bit by bit. */
  function And(x: nat, y: nat): nat
  {
    if x == 0 || y == 0 then 0
    else 2 * And(x / 2, y / 2) + (if x % 2 == 1 && y % 2 == 1 then 1 else 0)
  }

  /** `x & ~y`, bit by bit. */
  function AndNot(x: nat, y: nat): nat
    decreases x
  {
    if x == 0 then 0
    else 2 * AndNot(x / 2, y / 2) + (if x % 2 == 1 && y % 2 == 0 then 1 else 0)
  }

  /** `n.bit_length()`. */
  function BitLength(n: nat): nat
  {
    if n == 0 then 0 else 1 + BitLength(n / 2)
  }

  /** `n * unit` by repeated addition (see `TimesIsProduct`): region sizes and row
      offsets are stated with it so that proofs about them stay linear. */
  function Times(n: nat, unit: nat): (p: nat)
  {
    if n == 0 then 0 else Times(n - 1, unit) + unit
  }

  lemma TimesStep(n: nat, unit: nat)
    ensures Times(0, unit) == 0 && Times(n + 1, unit) == Times(n, unit) + unit
  {
  }

  lemma {:induction false} TimesIsProduct(n: nat, unit: nat)
    ensures Times(n, unit) == n * unit
  {
    if n > 0 {
      TimesIsProduct(n - 1, unit);
      assert n * unit == (n - 1) * unit + unit;
    }
  }

  lemma {:induction false} TimesMonotone(i: nat, j: nat, unit: nat)
    requires i <= j
    ensures Times(i, unit) <= Times(j, unit)
    decreases j
  {
    if i < j {
      TimesMonotone(i, j - 1, unit);
    }
  }

  /** `h` modulo `n` by repeated subtraction (see `RemainderIsMod`). */
  function Remainder(h: nat, n: nat): (r: nat)
    requires n > 0
    ensures r < n
  {
    if h < n then h else Remainder(h - n, n)
  }

  lemma {:induction false} RemainderIsMod(h: nat, n: nat)
    requires n > 0
    ensures Remainder(h, n) == h % n
  {
    if h >= n {
      RemainderIsMod(h - n, n);
      ModIs(h, n, (h - n) / n + 1, (h - n) % n);
    } else {
      ModIs(h, n, 0, h);
    }
  }

  ghost predicate IsPow2(n: nat)
  {
    exists k: nat :: Pow2(k) == n
  }

  lemma {:induction false} HalfMod(x: nat, p: nat)
    requires p > 0
    ensures x % (2 * p) == 2 * ((x / 2) % p) + x % 2
  {
    var q, r := (x / 2) / p, (x / 2) % p;
    assert x == (2 * p) * q + (2 * r + x % 2);
    ModIs(x, 2 * p, q, 2 * r + x % 2);
  }

  lemma ModIs(x: nat, n: nat, q: nat, r: nat)
    requires n > 0 && x == n * q + r && r < n
    ensures x % n == r && x / n == q
  {
    var d := x / n - q;
    assert n * d == r - x % n;
    MulGrows(n, d);
  }

  lemma MulGrows(n: nat, d: int)
    ensures d >= 1 ==> n * d >= n
    ensures d <= -1 ==> n * d <= -1 * n
  {
  }

  lemma AndZero(x: nat, m: nat)
    requires x == 0 || m == 0
    ensures And(x, m) == 0
  {
  }

  lemma AndStep(x: nat, m: nat)
    requires x > 0
    ensures And(x, 2 * m + 1) == 2 * And(x / 2, m) + x % 2
  {
    var y := 2 * m + 1;
    assert y / 2 == m && y % 2 == 1;
  }

  lemma AndNotStep(x: nat, m: nat)
    ensures AndNot(x, 2 * m + 1) == 2 * AndNot(x / 2, m)
  {
    var y := 2 * m + 1;
    assert y / 2 == m && y % 2 == 1;
  }

  lemma {:induction false} AndNotZero(x: nat)
    ensures AndNot(x, 0) == x
  {
    if x > 0 {
      AndNotZero(x / 2);
    }
  }

  lemma HalfRemainder(x: nat, p: nat)
    requires p > 0
    ensures Remainder(x, 2 * p) == 2 * Remainder(x / 2, p) + x % 2
  {
    RemainderIsMod(x, 2 * p);
    RemainderIsMod(x / 2, p);
    HalfMod(x, p);
  }

  lemma {:induction false} AndMaskRemainder(x: nat, k: nat)
    ensures And(x, Pow2(k) - 1) == Remainder(x, Pow2(k))
    decreases k
  {
    hide And;
    if k == 0 || x == 0 {
      AndZero(x, Pow2(k) - 1);
      RemainderIsMod(x, Pow2(k));
    } else {
      hide Remainder;
      var p := Pow2(k - 1);
      AndMaskRemainder(x / 2, k - 1);
      AndStep(x, p - 1);
      HalfRemainder(x, p);
    }
  }

  /** Masking with `2^k - 1` is the remainder modulo `2^k`. */
  lemma {:induction false} AndMask(x: nat, k: nat)
    ensures And(x, Pow2(k) - 1) == x % Pow2(k)
  {
    hide And, Remainder;
    AndMaskRemainder(x, k);
    RemainderIsMod(x, Pow2(k));
  }

  /** Clearing the low `k` bits subtracts the remainder modulo `2^k`. */
  lemma {:induction false} AndNotMask(x: nat, k: nat)
    ensures AndNot(x, Pow2(k) - 1) == x - x % Pow2(k)
    decreases k
  {
    hide AndNot;
    if k == 0 {
      AndNotZero(x);
    } else {
      var p := Pow2(k - 1);
      AndNotMask(x / 2, k - 1);
      AndNotStep(x, p - 1);
      HalfMod(x, p);
    }
  }

  lemma {:induction false} BitLengthBounds(n: nat)
    ensures n < Pow2(BitLength(n))
    ensures n > 0 ==> BitLength(n) > 0 && Pow2(BitLength(n) - 1) <= n
  {
    if n > 0 {
      BitLengthBounds(n / 2);
    }
  }

  lemma {:induction false} Pow2Monotone(j: nat, k: nat)
    requires j <= k
    ensures Pow2(j) <= Pow2(k)
    decreases k
  {
    if j < k {
      Pow2Monotone(j, k - 1);
    }
  }
}
