/** Numbers in positional notation, most significant digit first, and the powers that bound them. */
module Positional {
  /** One more than the largest 256-bit number. */
  const UINT256: nat := 0x1_0000000000000000_0000000000000000_0000000000000000_0000000000000000

  function Pow(b: nat, n: nat): (p: nat)
    ensures b > 0 ==> p > 0
  {
    if n == 0 then 1 else b * Pow(b, n - 1)
  }

  lemma MulLe(a: nat, b: nat, c: nat, d: nat)
    requires a <= b && c <= d
    ensures a * c <= b * d
  {
    assert b * d - a * c == (b - a) * d + a * (d - c);
  }

  lemma MulLt(a: nat, b: nat, c: nat)
    requires a < b && c > 0
    ensures a * c < b * c
  {
    assert b * c - a * c == (b - a) * c;
  }

  lemma {:induction false} PowAdd(b: nat, m: nat, n: nat)
    ensures Pow(b, m + n) == Pow(b, m) * Pow(b, n)
  {
    if m > 0 {
      PowAdd(b, m - 1, n);
      MulAssociates(b, Pow(b, m - 1), Pow(b, n));
      assert Pow(b, m + n) == b * Pow(b, m - 1 + n);
    }
  }

  lemma MulAssociates(a: nat, b: nat, c: nat)
    ensures a * (b * c) == (a * b) * c
  {
  }

  lemma {:induction false} PowMul(b: nat, m: nat, n: nat)
    ensures Pow(b, m * n) == Pow(Pow(b, m), n)
  {
    if n == 0 {
      assert m * n == 0;
    } else {
      PowMul(b, m, n - 1);
      assert m * n == m + m * (n - 1);
      PowAdd(b, m, m * (n - 1));
    }
  }

  lemma {:induction false} PowMonotoneExp(b: nat, m: nat, n: nat)
    requires b > 0 && m <= n
    ensures Pow(b, m) <= Pow(b, n)
    decreases n
  {
    if m < n {
      PowMonotoneExp(b, m, n - 1);
      assert b * Pow(b, n - 1) >= Pow(b, n - 1);
    }
  }

  lemma {:induction false} PowMonotoneBase(a: nat, b: nat, n: nat)
    requires a <= b
    ensures Pow(a, n) <= Pow(b, n)
  {
    if n > 0 {
      PowMonotoneBase(a, b, n - 1);
      MulLe(a, b, Pow(a, n - 1), Pow(b, n - 1));
    }
  }

  lemma {:induction false} PowStrictBase(a: nat, b: nat, n: nat)
    requires a < b && n > 0
    ensures Pow(a, n) < Pow(b, n)
  {
    PowMonotoneBase(a, b, n - 1);
    MulLe(a, a, Pow(a, n - 1), Pow(b, n - 1));
    MulLt(a, b, Pow(b, n - 1));
  }

  /**
   How many digits suffice: if `a` to the `q` is at most `b` to the `p`, then `k` digits to base `a`
   fit into `m` digits to base `b` as soon as `m` is at least the fraction `p / q` of `k`.
   */
  lemma DigitsFit(a: nat, b: nat, p: nat, q: nat, k: nat, m: nat)
    requires b > 0 && q > 0 && Pow(a, q) <= Pow(b, p) && p * k <= q * m
    ensures Pow(a, k) <= Pow(b, m)
  {
    hide Pow;
    PowersFit(a, b, p, q, k);
    PowSplit(b, q, m);
    PowMonotoneExp(b, p * k, q * m);
    if Pow(b, m) < Pow(a, k) {
      PowStrictBase(Pow(b, m), Pow(a, k), q);
    }
  }

  lemma PowersFit(a: nat, b: nat, p: nat, q: nat, k: nat)
    requires Pow(a, q) <= Pow(b, p)
    ensures Pow(Pow(a, k), q) <= Pow(b, p * k)
  {
    hide Pow;
    PowSwap(a, k, q);
    PowMonotoneBase(Pow(a, q), Pow(b, p), k);
    PowMul(b, p, k);
  }

  lemma PowSplit(b: nat, q: nat, m: nat)
    ensures Pow(b, q * m) == Pow(Pow(b, m), q)
  {
    hide Pow;
    PowMul(b, q, m);
    PowSwap(b, q, m);
  }

  lemma PowSwap(b: nat, m: nat, n: nat)
    ensures Pow(Pow(b, m), n) == Pow(Pow(b, n), m)
  {
    hide Pow;
    PowMul(b, m, n);
    PowMul(b, n, m);
    assert m * n == n * m;
  }

  // ---------------------------------------------------------------- digits

  predicate AllBelow(s: seq<nat>, base: nat) {
    forall i :: 0 <= i < |s| ==> s[i] < base
  }

  /** The number that `s` writes to base `base`. */
  function Value(s: seq<nat>, base: nat): nat {
    if s == [] then 0 else s[0] * Pow(base, |s| - 1) + Value(s[1..], base)
  }

  lemma {:induction false} ValueBound(s: seq<nat>, base: nat)
    requires base > 0 && AllBelow(s, base)
    ensures Value(s, base) < Pow(base, |s|)
  {
    if s != [] {
      ValueBound(s[1..], base);
      DigitBound(s[0], base, Pow(base, |s| - 1), Value(s[1..], base));
    }
  }

  lemma DigitBound(d: nat, base: nat, p: nat, v: nat)
    requires d < base && v < p
    ensures d * p + v < base * p
  {
    assert d * p <= (base - 1) * p;
    assert (base - 1) * p + p == base * p;
  }

  lemma {:induction false} ValueAppend(s: seq<nat>, d: nat, base: nat)
    ensures Value(s + [d], base) == Value(s, base) * base + d
  {
    if s == [] {
      assert (s + [d])[1..] == [];
    } else {
      assert (s + [d])[1..] == s[1..] + [d];
      ValueAppend(s[1..], d, base);
      assert Pow(base, |s|) == base * Pow(base, |s| - 1);
      assert s[0] * Pow(base, |s|) == (s[0] * Pow(base, |s| - 1)) * base;
    }
  }

  /** A leading digit other than zero makes the number at least the weight of its place. */
  lemma ValueLead(s: seq<nat>, base: nat)
    requires s != [] && s[0] > 0
    ensures Value(s, base) >= Pow(base, |s| - 1)
  {
    assert s[0] * Pow(base, |s| - 1) >= Pow(base, |s| - 1);
  }

  function Zeros(n: nat): (s: seq<nat>)
    ensures |s| == n && forall i :: 0 <= i < n ==> s[i] == 0
  {
    seq(n, _ => 0)
  }

  lemma {:induction false} ValueZeros(n: nat, s: seq<nat>, base: nat)
    ensures Value(Zeros(n) + s, base) == Value(s, base)
  {
    if n == 0 {
      assert Zeros(0) + s == s;
    } else {
      ValueZeros(n - 1, s, base);
      assert (Zeros(n) + s)[1..] == Zeros(n - 1) + s;
    }
  }

  /** How many leading zeros `s` has. */
  function LeadingZeros(s: seq<nat>): (n: nat)
    ensures n <= |s| && s[..n] == Zeros(n) && (n < |s| ==> s[n] != 0)
  {
    if s == [] || s[0] != 0 then 0
    else
      var m := LeadingZeros(s[1..]);
      assert s[..m + 1] == [0] + s[1..][..m];
      m + 1
  }

  /** The digits of `v` without leading zeros. */
  function Digits(v: nat, base: nat): (s: seq<nat>)
    requires base >= 2
  {
    if v == 0 then [] else Digits(v / base, base) + [v % base]
  }

  lemma ValueNone(base: nat)
    ensures Value([], base) == 0
  {
  }

  lemma QuotRem(v: nat, base: nat) returns (q: nat, r: nat)
    requires base >= 2
    ensures q == v / base && r == v % base && v == q * base + r && r < base && (v > 0 ==> q < v)
  {
    q, r := v / base, v % base;
    assert v == q * base + r;
    MulLe(q, q, 2, base);
  }

  lemma {:induction false} DigitsValue(v: nat, base: nat)
    requires base >= 2
    ensures Value(Digits(v, base), base) == v
  {
    hide Value;
    if v == 0 {
      ValueNone(base);
    } else {
      var q, r := QuotRem(v, base);
      DigitsValue(q, base);
      ValueAppend(Digits(q, base), r, base);
    }
  }

  lemma {:induction false} DigitsShape(v: nat, base: nat)
    requires base >= 2
    ensures AllBelow(Digits(v, base), base)
    ensures Digits(v, base) != [] ==> Digits(v, base)[0] != 0
  {
    if v > 0 {
      var q, r := QuotRem(v, base);
      DigitsShape(q, base);
      if q == 0 {
        assert Digits(q, base) == [];
      }
    }
  }

  /** A digit string without leading zeros is the digits of its value. */
  lemma {:induction false} DigitsOfValue(s: seq<nat>, base: nat)
    requires base >= 2 && AllBelow(s, base) && (s != [] ==> s[0] != 0)
    ensures Digits(Value(s, base), base) == s
  {
    if s != [] {
      var init, d := s[..|s| - 1], s[|s| - 1];
      assert s == init + [d];
      ValueAppend(init, d, base);
      ValueLead(s, base);
      DivMod(Value(init, base), base, d);
      DigitsOfValue(init, base);
    }
  }

  lemma DivMod(q: nat, base: nat, r: nat)
    requires r < base
    ensures (q * base + r) / base == q && (q * base + r) % base == r
  {
    var x := q * base + r;
    var q', r' := x / base, x % base;
    assert q' * base + r' == q * base + r;
    assert (q' - q) * base == q' * base - q * base;
    assert (q - q') * base == q * base - q' * base;
    if q' > q {
      MulLe(1, q' - q, base, base);
    } else if q' < q {
      MulLe(1, q - q', base, base);
    }
  }

  /** Stripping leading zeros keeps the value and leaves its digits. */
  lemma StripZeros(s: seq<nat>, base: nat)
    requires base >= 2 && AllBelow(s, base)
    ensures s[LeadingZeros(s)..] == Digits(Value(s, base), base)
  {
    var n := LeadingZeros(s);
    assert s == Zeros(n) + s[n..];
    ValueZeros(n, s[n..], base);
    DigitsOfValue(s[n..], base);
  }
}
