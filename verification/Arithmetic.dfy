/** Sums, division, remainders and powers of two. */
module Arithmetic {

  // ---- Sums ------------------------------------------------------------------------------

  ghost function Sum(s: seq<nat>): nat {
    if s == [] then 0 else s[0] + Sum(s[1..])
  }

  lemma {:induction false} SumUpdate(s: seq<nat>, j: nat, x: nat)
    requires j < |s|
    ensures Sum(s[j := x]) == Sum(s) - s[j] + x
  {
    if j == 0 {
      assert s[0 := x][1..] == s[1..];
    } else {
      SumUpdate(s[1..], j - 1, x);
      assert s[j := x][1..] == s[1..][j - 1 := x];
    }
  }

  lemma {:induction false} SumBounded(s: seq<nat>, bound: nat)
    requires forall j :: 0 <= j < |s| ==> s[j] <= bound
    ensures Sum(s) <= bound * |s|
  {
    if s != [] {
      SumBounded(s[1..], bound);
      assert bound * |s| == bound * |s[1..]| + bound;
    }
  }

  // ---- Division and remainders -----------------------------------------------------------

  lemma ModSub(x: int, cap: nat, q: int)
    requires 0 < cap
    ensures (x + q * cap) % cap == x % cap
  {
    var d := x / cap;
    assert x == d * cap + x % cap;
    assert x + q * cap == (d + q) * cap + x % cap;
    DivModUnique(x + q * cap, cap, d + q, x % cap);
  }

  lemma {:induction false} DivModUnique(x: int, cap: nat, q: int, r: nat)
    requires r < cap && x == q * cap + r
    ensures x / cap == q && x % cap == r
  {
    var q', r' := x / cap, x % cap;
    assert x == q' * cap + r';
    assert (q - q') * cap == r' - r;
    MultipleBelow(q - q', cap);
  }

  lemma MultipleBelow(m: int, cap: nat)
    requires 0 - cap < m * cap < cap
    ensures m == 0
  {
    if m >= 1 {
      MulMono(1, m, cap);
    } else if m <= -1 {
      MulMono(m, -1, cap);
    }
  }

  lemma MulMono(a: int, b: int, cap: nat)
    requires a <= b
    ensures a * cap <= b * cap
  {
    assert b * cap - a * cap == (b - a) * cap;
  }

  lemma MulSub(a: int, b: int, cap: nat)
    ensures (a - b) * cap == a * cap - b * cap
  {
  }

  lemma InRound(i: nat, cap: nat) returns (q: nat, d: nat)
    requires 0 < cap
    ensures i == q * cap + d && d < cap
  {
    q, d := i / cap, i % cap;
  }

  // Numbers written as q * cap + d compare like the pairs (q, d).
  lemma RoundsCompare(q: nat, d: nat, m: nat, e: nat, cap: nat)
    requires d < cap && e < cap && q * cap + d < m * cap + e
    ensures q < m || (q == m && d < e)
  {
    if q > m {
      MulMono(m + 1, q, cap);
    }
  }

  function Pow2(n: nat): (p: nat)
    ensures p > 0
  {
    if n == 0 then 1 else 2 * Pow2(n - 1)
  }

  lemma {:induction false} Pow2Adds(a: nat, b: nat)
    ensures Pow2(a + b) == Pow2(a) * Pow2(b)
  {
    if a > 0 {
      Pow2Adds(a - 1, b);
      assert Pow2(a) * Pow2(b) == 2 * (Pow2(a - 1) * Pow2(b));
    }
  }

  lemma {:induction false} Pow2Monotone(a: nat, b: nat)
    requires a <= b
    ensures Pow2(a) <= Pow2(b)
    ensures a < b ==> 2 * Pow2(a) <= Pow2(b)
  {
    if a < b {
      Pow2Monotone(a, b - 1);
    }
  }

  lemma Pow2Constants()
    ensures Pow2(1) == 2 && Pow2(2) == 4 && Pow2(4) == 16 && Pow2(8) == 256
    ensures Pow2(14) == 0x4000 && Pow2(15) == 0x8000 && Pow2(16) == 0x1_0000 && Pow2(31) == 0x8000_0000 && Pow2(32) == 0x1_0000_0000
  {
    assert Pow2(4) == 16;
    Pow2Adds(4, 4);
    Pow2Adds(8, 8);
    Pow2Adds(16, 16);
  }

  /** The bitwise AND of two numbers. */
  function BitAnd(x: nat, y: nat): nat
    decreases x
  {
    if x == 0 || y == 0 then 0 else x % 2 * (y % 2) + 2 * BitAnd(x / 2, y / 2)
  }

  lemma RemainderByDouble(x: nat, half: nat)
    requires half > 0
    ensures x % (2 * half) == 2 * (x / 2 % half) + x % 2
  {
    var q, r := x / 2 / half, x / 2 % half;
    assert x / 2 == q * half + r;
    assert q * (2 * half) == 2 * (q * half);
    DivModUnique(x, 2 * half, q, 2 * r + x % 2);
  }

  /** ANDing with a mask of n ones is taking the remainder by 2^n. */
  lemma {:induction false} MaskIsRemainder(x: nat, n: nat)
    ensures BitAnd(x, Pow2(n) - 1) == x % Pow2(n)
    decreases n
  {
    if n > 0 {
      MaskIsRemainder(x / 2, n - 1);
      RemainderByDouble(x, Pow2(n - 1));
      assert (Pow2(n) - 1) / 2 == Pow2(n - 1) - 1;
    }
  }

  lemma RemainderByFactor(x: int, a: nat, b: nat)
    requires a > 0 && b > 0
    ensures a * b > 0 && x % (a * b) % b == x % b
  {
    MulMono(1, a, b);
    var q := x / (a * b);
    assert x == q * (a * b) + x % (a * b);
    assert q * (a * b) == (q * a) * b;
    ModSub(x % (a * b), b, q * a);
  }

  /** A remainder by 2^m with m at least n does not disturb the remainder by 2^n. */
  lemma RemainderOfRemainder(x: int, n: nat, m: nat)
    requires n <= m
    ensures x % Pow2(m) % Pow2(n) == x % Pow2(n)
  {
    Pow2Adds(m - n, n);
    RemainderByFactor(x, Pow2(m - n), Pow2(n));
  }

  lemma RemainderOfSum(x: int, y: int, cap: nat)
    requires 0 < cap
    ensures (x % cap + y) % cap == (x + y) % cap
  {
    assert x == (x / cap) * cap + x % cap;
    ModSub(x % cap + y, cap, x / cap);
  }

  lemma RemaindersDiffer(x: int, y: int, cap: nat)
    requires 0 < y - x < cap
    ensures x % cap != y % cap
  {
    if x % cap == y % cap {
      assert x == (x / cap) * cap + x % cap && y == (y / cap) * cap + y % cap;
      MulSub(y / cap, x / cap, cap);
      MultipleBelow(y / cap - x / cap, cap);
    }
  }
}
