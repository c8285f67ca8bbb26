/** C strings in character buffers: decimal numerals, the length of a string, and appends that stop at the end. */
module CText {
  import opened Numerals

  function Digit(d: nat): char {
    if d < 10 then '0' + d as char else '?'
  }

  function Numeral(d: seq<nat>): string {
    seq(|d|, k requires 0 <= k < |d| => Digit(d[k]))
  }

  /** The usual decimal numeral: no leading zero, and "0" for zero. */
  function Decimal(v: nat): string {
    if v == 0 then "0" else Numeral(Digits(v, 10))
  }

  function DigitValue(c: char): nat {
    if '0' <= c <= '9' then (c - '0') as int else 10
  }

  predicate AllDigits(s: string) {
    forall c <- s :: '0' <= c <= '9'
  }

  function DigitValues(s: string): seq<nat> {
    seq(|s|, k requires 0 <= k < |s| => DigitValue(s[k]))
  }

  /** What a decimal numeral denotes. */
  function ValueOf(s: string): nat {
    Val(DigitValues(s), 10)
  }

  lemma NumeralDigits(d: seq<nat>)
    requires Below(d, 10)
    ensures AllDigits(Numeral(d)) && ValueOf(Numeral(d)) == Val(d, 10)
  {
    assert DigitValues(Numeral(d)) == d;
  }

  /** A numeral is read back as the number it was written for. */
  lemma DecimalBack(v: nat)
    ensures AllDigits(Decimal(v)) && Decimal(v) != "" && ValueOf(Decimal(v)) == v
    ensures Decimal(v)[0] == '0' ==> v == 0
  {
    if v == 0 {
      ValOfZeros(1, 10);
      assert DigitValues("0") == Zeros(1);
    } else {
      DigitsBelow(v, 10);
      ValOfDigits(v, 10);
      NumeralDigits(Digits(v, 10));
    }
  }

  /** Concatenated digits weigh by their place. */
  lemma ValueOfJoin(a: string, b: string)
    ensures ValueOf(a + b) == ValueOf(a) * Pow(10, |b|) + ValueOf(b)
  {
    hide Val, Pow;
    assert DigitValues(a + b) == DigitValues(a) + DigitValues(b);
    ValConcat(DigitValues(a), DigitValues(b), 10);
  }

  lemma DecimalLength(v: nat, n: nat)
    requires n > 0
    ensures |Decimal(v)| <= n <==> v < Pow(10, n)
  {
    DigitsLength(v, 10, n);
    PowPositive(10, n);
  }

  function NoughtDigits(n: nat): string {
    seq(n, _ => '0')
  }

  lemma NoughtsValue(n: nat, s: string)
    ensures ValueOf(NoughtDigits(n) + s) == ValueOf(s)
  {
    hide Val, Pow;
    ValueOfJoin(NoughtDigits(n), s);
    assert DigitValues(NoughtDigits(n)) == Zeros(n);
    ValOfZeros(n, 10);
  }

  lemma NoughtLength(n: nat)
    ensures |NoughtDigits(n)| == n
  {
  }

  // ---- strings in buffers ----

  predicate NoEnd(s: string) {
    '\0' !in s
  }

  lemma DecimalNoEnd(v: nat)
    ensures NoEnd(Decimal(v))
  {
    DecimalBack(v);
  }

  /** The C string at `at` is s. */
  predicate IsText(b: array<char>, at: nat, s: string)
    reads b
  {
    at + |s| < b.Length && b[at..at + |s|] == s && b[at + |s|] == '\0' && NoEnd(s)
  }

  /** The text s has been written at `at`; what follows it is anything. */
  predicate HasText(b: array<char>, at: nat, s: string)
    reads b
  {
    at + |s| <= b.Length && b[at..at + |s|] == s && NoEnd(s)
  }

  /** The C string a buffer starts with. */
  function TextOf(s: seq<char>): string {
    if s == [] || s[0] == '\0' then "" else [s[0]] + TextOf(s[1..])
  }

  lemma {:induction false} TextOfJoin(s: string, rest: seq<char>)
    requires NoEnd(s)
    ensures TextOf(s + ['\0'] + rest) == s
  {
    if s == "" {
      assert (s + ['\0'] + rest)[0] == '\0';
    } else {
      var w := s + ['\0'] + rest;
      assert w[0] == s[0] && w[1..] == s[1..] + ['\0'] + rest;
      assert s[0] in s;
      TextOfJoin(s[1..], rest);
    }
  }

  lemma IsTextOf(b: array<char>, s: string)
    requires IsText(b, 0, s)
    ensures TextOf(b[..]) == s
  {
    assert b[..] == b[..|s|] + ['\0'] + b[|s| + 1..];
    TextOfJoin(s, b[|s| + 1..]);
  }

  /** Nothing has changed but the characters from lo up to hi. */
  twostate predicate OnlyWithin(b: array<char>, lo: nat, hi: nat)
    reads b
  {
    forall k :: 0 <= k < b.Length && !(lo <= k < hi) ==> b[k] == old(b[k])
  }

  method Strlen(b: array<char>, at: nat, ghost s: string) returns (n: nat)
    requires IsText(b, at, s)
    ensures n == |s|
  {
    n := 0;
    assert forall k :: 0 <= k < |s| ==> b[at + k] == b[at..at + |s|][k] == s[k];
    while b[at + n] != '\0'
      invariant n <= |s|
      decreases |s| - n
    {
      n := n + 1;
    }
  }

  /** The first n characters, or all if there are fewer. */
  function Cut(s: string, n: nat): string {
    if |s| <= n then s else s[..n]
  }

  /** Cutting after every append is cutting once at the end. */
  lemma CutAppend(x: string, y: string, n: nat)
    ensures |Cut(x, n)| <= n && Cut(x, n) + Cut(y, n - |Cut(x, n)|) == Cut(x + y, n)
  {
  }

  /** The text of `snprintf`, whose format has been expanded to s: at most size - 1 characters, always terminated. */
  method Snprintf(b: array<char>, at: nat, size: nat, s: string)
    requires 0 < size && at + size <= b.Length && NoEnd(s)
    modifies b
    ensures IsText(b, at, Cut(s, size - 1)) && OnlyWithin(b, at, at + size)
  {
    var n := if |s| <= size - 1 then |s| else size - 1;
    for i := 0 to n
      invariant b[at..at + i] == s[..i] && OnlyWithin(b, at, at + i)
    {
      b[at + i] := s[i];
      assert b[at..at + i + 1] == b[at..at + i] + [s[i]];
    }
    b[at + n] := '\0';
  }

  /**
   * One step of a printer: an append that is told how much room is left, then the length of the whole anew. Writing x
   * before and s now, with the room for neither known, leaves the beginning of x + s.
   */
  method Append(b: array<char>, at: nat, size: nat, written: nat, s: string, ghost x: string) returns (n: nat)
    requires 0 < size && at + size <= b.Length && NoEnd(s)
    requires HasText(b, at, Cut(x, size - 1)) && written == |Cut(x, size - 1)|
    modifies b
    ensures IsText(b, at, Cut(x + s, size - 1)) && n == |Cut(x + s, size - 1)| && OnlyWithin(b, at, at + size)
  {
    hide Cut;
    CutAppend(x, s, size - 1);
    ghost var front := Cut(x, size - 1);
    assert b[at..at + written] == front;
    Snprintf(b, at + written, size - written, s);
    assert b[at..at + written] == front;
    Joined(b, at, front, Cut(s, size - written - 1));
    n := Strlen(b, at, Cut(x + s, size - 1));
  }

  lemma Joined(b: array<char>, at: nat, x: string, y: string)
    requires IsText(b, at + |x|, y) && HasText(b, at, x)
    ensures IsText(b, at, x + y)
  {
    assert b[at..at + |x + y|] == b[at..at + |x|] + b[at + |x|..at + |x| + |y|];
  }

  /** A digit written in front of what is there takes the place of the numeral's last. */
  lemma NumeralStep(v: nat, tail: string)
    requires v > 0
    ensures Numeral(Digits(v, 10)) + tail == Numeral(Digits(v / 10, 10)) + ([Digit(v % 10)] + tail)
    ensures |Digits(v, 10)| == |Digits(v / 10, 10)| + 1 && v / 10 < v
  {
    hide Digits;
    DigitsStep(v, 10);
  }

  lemma LastOfDecimal(v: nat)
    ensures Decimal(v) == Numeral(Digits(v / 10, 10)) + [Digit(v % 10)] && |Decimal(v)| == |Digits(v / 10, 10)| + 1
  {
    if v > 0 {
      NumeralStep(v, "");
    }
    hide Digits;
  }

  lemma NoDigits()
    ensures Digits(0, 10) == [] && Numeral([]) == ""
  {
  }

  /** `ui64toa`: find where the numeral ends, then write it from the back. */
  method Ui64toa(v: nat, b: array<char>, at: nat)
    requires at + |Decimal(v)| < b.Length
    modifies b
    ensures IsText(b, at, Decimal(v)) && OnlyWithin(b, at, at + |Decimal(v)| + 1)
  {
    hide Decimal, Digits, Numeral;
    LastOfDecimal(v);
    NoDigits();
    var p, shifter := at, v;
    ghost var n := |Decimal(v)|;
    p := p + 1;
    shifter := shifter / 10;
    while shifter != 0
      invariant p + |Digits(shifter, 10)| == at + n && b[..] == old(b[..])
      decreases shifter
    {
      NumeralStep(shifter, "");
      p := p + 1;
      shifter := shifter / 10;
    }
    b[p] := '\0';
    var i := v;
    p := p - 1;
    b[p] := Digit(i % 10);
    i := i / 10;
    assert b[p..at + n] == [Digit(v % 10)];
    assert forall k :: 0 <= k < b.Length && !(at <= k < at + n + 1) ==> b[k] == old(b[..])[k];
    while i != 0
      invariant at <= p == at + |Digits(i, 10)| < at + n
      invariant Decimal(v) == Numeral(Digits(i, 10)) + b[p..at + n]
      invariant b[at + n] == '\0' && OnlyWithin(b, at, at + n + 1)
      decreases i
    {
      ghost var tail := b[p..at + n];
      NumeralStep(i, tail);
      p := p - 1;
      b[p] := Digit(i % 10);
      assert b[p..at + n] == [Digit(i % 10)] + tail;
      i := i / 10;
    }
    DecimalNoEnd(v);
  }
}
