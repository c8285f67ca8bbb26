/** Positional numerals: the meaning of a big-endian digit sequence, and the minimal digits of a number. */
module Numerals {

  type byte = x: int | 0 <= x < 256

  function Pow(b: nat, e: nat): nat {
    if e == 0 then 1 else b * Pow(b, e - 1)
  }

  /** The number a big-endian digit sequence denotes. */
  function Val(d: seq<nat>, base: nat): nat {
    if d == [] then 0 else Val(d[..|d| - 1], base) * base + d[|d| - 1]
  }

  /** The digits of v, most significant first, without leading zeros; zero has no digits. */
  function Digits(v: nat, base: nat): seq<nat>
    requires base >= 2
  {
    if v == 0 then [] else
      DivShrinks(v, base);
      Digits(v / base, base) + [v % base]
  }

  ghost predicate Below(d: seq<nat>, base: nat) {
    forall k :: 0 <= k < |d| ==> d[k] < base
  }

  function Zeros(n: nat): seq<byte> {
    seq(n, _ => 0)
  }

  // ---- arithmetic helpers ----

  lemma DivShrinks(v: nat, base: nat)
    requires v > 0 && base >= 2
    ensures 0 <= v / base < v
  {
    var q := v / base;
    assert v == q * base + v % base;
    if q >= v {
      assert q * base >= v * 2 by { MulMono(v, q, 2, base); }
    }
  }

  lemma MulMono(a: nat, b: nat, c: nat, d: nat)
    requires a <= b && c <= d
    ensures a * c <= b * d
  {
    assert a * c <= b * c;
    assert b * c <= b * d;
  }

  lemma DivModUnique(v: nat, base: nat, q: nat, r: nat)
    requires base > 0 && r < base && v == q * base + r
    ensures v / base == q && v % base == r
  {
    var q', r' := v / base, v % base;
    assert v == q' * base + r';
    assert (q - q') * base == r' - r;
    if q > q' {
      assert (q - q') * base >= 1 * base by { MulMono(1, q - q', base, base); }
    } else if q < q' {
      assert (q' - q) * base >= 1 * base by { MulMono(1, q' - q, base, base); }
    }
  }

  lemma {:induction false} PowAdd(b: nat, m: nat, n: nat)
    ensures Pow(b, m + n) == Pow(b, m) * Pow(b, n)
  {
    hide Pow;
    if m == 0 {
      PowNone(b);
    } else {
      PowStep(b, m);
      PowStep(b, m + n);
      PowAdd(b, m - 1, n);
      MulAssoc(b, Pow(b, m - 1), Pow(b, n));
    }
  }

  lemma PowNone(b: nat)
    ensures Pow(b, 0) == 1
  {
  }

  lemma PowStep(b: nat, e: nat)
    requires e > 0
    ensures Pow(b, e) == b * Pow(b, e - 1)
  {
  }

  lemma MulAssoc(a: nat, b: nat, c: nat)
    ensures a * (b * c) == a * b * c
  {
  }

  lemma {:induction false} PowPositive(b: nat, e: nat)
    requires b > 0
    ensures Pow(b, e) > 0
  {
    if e > 0 {
      PowPositive(b, e - 1);
      MulMono(1, b, 1, Pow(b, e - 1));
    }
  }

  lemma {:induction false} PowMono(b: nat, m: nat, n: nat)
    requires b > 0 && m <= n
    ensures Pow(b, m) <= Pow(b, n)
  {
    PowAdd(b, m, n - m);
    PowPositive(b, n - m);
    MulMono(Pow(b, m), Pow(b, m), 1, Pow(b, n - m));
  }

  lemma {:induction false} PowBaseMono(a: nat, b: nat, e: nat)
    requires a <= b
    ensures Pow(a, e) <= Pow(b, e)
  {
    if e > 0 {
      PowBaseMono(a, b, e - 1);
      MulMono(a, b, Pow(a, e - 1), Pow(b, e - 1));
    }
  }

  // ---- meaning of digit sequences ----

  lemma {:induction false} ValConcat(a: seq<nat>, b: seq<nat>, base: nat)
    ensures Val(a + b, base) == Val(a, base) * Pow(base, |b|) + Val(b, base)
  {
    if b == [] {
      assert a + b == a;
    } else {
      var n := |b| - 1;
      ValConcat(a, b[..n], base);
      assert (a + b)[..|a + b| - 1] == a + b[..n];
      ShiftSum(Val(a, base), Pow(base, n), Val(b[..n], base), base, b[n]);
    }
  }

  lemma ShiftSum(x: nat, p: nat, y: nat, base: nat, d: nat)
    ensures (x * p + y) * base + d == x * (base * p) + (y * base + d)
  {
    assert x * p * base == x * (base * p);
  }

  lemma {:induction false} ValBound(d: seq<nat>, base: nat)
    requires Below(d, base) && base > 0
    ensures Val(d, base) < Pow(base, |d|)
  {
    if d != [] {
      var n := |d| - 1;
      ValBound(d[..n], base);
      ShiftBound(Val(d[..n], base), Pow(base, n), base, d[n]);
    }
  }

  lemma ShiftBound(v: nat, p: nat, base: nat, d: nat)
    requires v < p && d < base
    ensures v * base + d < base * p
  {
    MulMono(v + 1, p, base, base);
  }

  lemma {:induction false} ValZeros(n: nat, d: seq<nat>, base: nat)
    ensures Val(Zeros(n) + d, base) == Val(d, base)
  {
    ValConcat(Zeros(n), d, base);
    ValOfZeros(n, base);
  }

  lemma {:induction false} ValOfZeros(n: nat, base: nat)
    ensures Val(Zeros(n), base) == 0
  {
    if n > 0 {
      ValOfZeros(n - 1, base);
      assert Zeros(n)[..n - 1] == Zeros(n - 1);
    }
  }

  lemma {:induction false} DigitsBelow(v: nat, base: nat)
    requires base >= 2
    ensures Below(Digits(v, base), base)
    ensures v > 0 ==> Digits(v, base) != [] && Digits(v, base)[0] > 0
  {
    if v > 0 {
      DivShrinks(v, base);
      DigitsBelow(v / base, base);
      if v / base == 0 {
        assert v == v % base;
      }
    }
  }

  lemma {:induction false} ValOfDigits(v: nat, base: nat)
    requires base >= 2
    ensures Val(Digits(v, base), base) == v
  {
    hide Val, Digits;
    if v == 0 {
      NoDigits(base);
    } else {
      DigitsStep(v, base);
      ValOfDigits(v / base, base);
      ValAppend(Digits(v / base, base), v % base, base);
    }
  }

  lemma NoDigits(base: nat)
    requires base >= 2
    ensures Digits(0, base) == [] && Val([], base) == 0
  {
  }

  /** One digit is split off, and quotient and digit make up the number. */
  lemma DigitsStep(v: nat, base: nat)
    requires v > 0 && base >= 2
    ensures v / base < v && v == v / base * base + v % base
    ensures Digits(v, base) == Digits(v / base, base) + [v % base]
  {
    DivShrinks(v, base);
  }

  lemma ValAppend(d: seq<nat>, r: nat, base: nat)
    ensures Val(d + [r], base) == Val(d, base) * base + r
  {
    assert (d + [r])[..|d|] == d;
  }

  /** Minimal numerals are unique: digits without a leading zero are the digits of their value. */
  lemma {:induction false} DigitsOfVal(d: seq<nat>, base: nat)
    requires base >= 2 && Below(d, base) && (d == [] || d[0] > 0)
    ensures Digits(Val(d, base), base) == d
  {
    if d != [] {
      var n := |d| - 1;
      DigitsOfVal(d[..n], base);
      DivModUnique(Val(d, base), base, Val(d[..n], base), d[n]);
      LeadingDigit(d, base);
      PowPositive(base, n);
      assert d[..n] + [d[n]] == d;
    }
  }

  /** A value below base^n has at most n digits. */
  lemma {:induction false} DigitsLength(v: nat, base: nat, n: nat)
    requires base >= 2
    ensures |Digits(v, base)| <= n <==> v < Pow(base, n)
  {
    var d := Digits(v, base);
    DigitsBelow(v, base);
    ValOfDigits(v, base);
    if |d| <= n {
      ValBound(d, base);
      PowMono(base, |d|, n);
    } else {
      LeadingDigit(d, base);
      PowMono(base, n, |d| - 1);
    }
  }

  lemma {:induction false} LeadingDigit(d: seq<nat>, base: nat)
    requires base >= 1 && d != [] && d[0] > 0
    ensures Val(d, base) >= Pow(base, |d| - 1)
  {
    assert d == d[..1] + d[1..];
    ValConcat(d[..1], d[1..], base);
    assert Val(d[..1], base) == d[0] by { assert d[..1][..0] == []; }
    MulMono(1, d[0], Pow(base, |d| - 1), Pow(base, |d| - 1));
  }

  /** Digit sequences of equal length and value are equal. */
  lemma {:induction false} ValInjective(a: seq<nat>, b: seq<nat>, base: nat)
    requires base >= 2 && Below(a, base) && Below(b, base) && |a| == |b|
    requires Val(a, base) == Val(b, base)
    ensures a == b
  {
    if a != [] {
      var n := |a| - 1;
      DivModUnique(Val(a, base), base, Val(a[..n], base), a[n]);
      DivModUnique(Val(b, base), base, Val(b[..n], base), b[n]);
      ValInjective(a[..n], b[..n], base);
      assert a == a[..n] + [a[n]] && b == b[..n] + [b[n]];
    }
  }
}
