/** Base58 conversion in place: `b58enc`, its working-buffer bound, and the decoder that inverts it. */
module Base58 {
  import opened Numerals

  /** The alphabet, as its six runs of consecutive letters: 0, O, I and l are left out. */
  function Letter(k: nat): char
    requires k < 58
  {
    if k < 9 then '1' + k as char
    else if k < 17 then 'A' + (k - 9) as char
    else if k < 22 then 'J' + (k - 17) as char
    else if k < 33 then 'P' + (k - 22) as char
    else if k < 44 then 'a' + (k - 33) as char
    else 'm' + (k - 44) as char
  }

  function LeadingZeros(b: seq<nat>): (z: nat)
    ensures z <= |b|
  {
    if b != [] && b[0] == 0 then 1 + LeadingZeros(b[1..]) else 0
  }

  /** Digits and letters without 0, I, O and l. */
  const ALPHABET: string := "123456789ABCDEFGHJKLM" + "NPQRSTUVWXYZabcdefghi" + "jkmnopqrstuvwxyz"

  /** The letters are those of the base58 alphabet. */
  lemma Alphabet(k: nat)
    requires k < 58
    ensures Letter(k) == ALPHABET[k]
  {
    if k < 9 {
      AlphabetDigits(k);
    } else if k < 22 {
      AlphabetFirstCapitals(k);
    } else if k < 33 {
      AlphabetLaterCapitals(k);
    } else if k < 44 {
      AlphabetFirstSmall(k);
    } else {
      AlphabetLaterSmall(k);
    }
  }

  lemma AlphabetDigits(k: nat)
    requires k < 9
    ensures Letter(k) == ALPHABET[k]
  {
  }

  lemma AlphabetFirstCapitals(k: nat)
    requires 9 <= k < 22
    ensures Letter(k) == ALPHABET[k]
  {
  }

  lemma AlphabetLaterCapitals(k: nat)
    requires 22 <= k < 33
    ensures Letter(k) == ALPHABET[k]
  {
  }

  lemma AlphabetFirstSmall(k: nat)
    requires 33 <= k < 44
    ensures Letter(k) == ALPHABET[k]
  {
  }

  lemma AlphabetLaterSmall(k: nat)
    requires 44 <= k < 58
    ensures Letter(k) == ALPHABET[k]
  {
  }

  function Letters(d: seq<nat>): string
    requires Below(d, 58)
  {
    seq(|d|, k requires 0 <= k < |d| => Letter(d[k]))
  }

  lemma LettersAt(d: seq<nat>)
    requires Below(d, 58)
    ensures |Letters(d)| == |d| && forall k :: 0 <= k < |d| ==> Letters(d)[k] == Letter(d[k])
  {
  }

  /** The text a byte string stands for: one '1' per leading zero byte, then the base 58 numeral of the rest. */
  function Encode(bin: seq<byte>): string {
    var z := LeadingZeros(bin);
    DigitsBelow(Val(bin, 256), 58);
    seq(z, _ => '1') + Letters(Digits(Val(bin, 256), 58))
  }

  // ---- the decoder ----

  function LetterIndex(c: char): nat {
    if '1' <= c <= '9' then (c - '1') as nat
    else if 'A' <= c <= 'H' then (c - 'A') as nat + 9
    else if 'J' <= c <= 'N' then (c - 'J') as nat + 17
    else if 'P' <= c <= 'Z' then (c - 'P') as nat + 22
    else if 'a' <= c <= 'k' then (c - 'a') as nat + 33
    else if 'm' <= c <= 'z' then (c - 'm') as nat + 44
    else 58
  }

  function Indices(text: string): seq<nat> {
    seq(|text|, k requires 0 <= k < |text| => LetterIndex(text[k]))
  }

  function Decode(text: string): seq<nat> {
    var d := Indices(text);
    var z := LeadingZeros(d);
    Zeros(z) + Digits(Val(d, 58), 256)
  }

  lemma {:induction false} LeadingZerosSplit(b: seq<nat>)
    ensures b == Zeros(LeadingZeros(b)) + b[LeadingZeros(b)..]
    ensures LeadingZeros(b) < |b| ==> b[LeadingZeros(b)] > 0
  {
    if b != [] && b[0] == 0 {
      LeadingZerosSplit(b[1..]);
      var z := LeadingZeros(b[1..]);
      OneZeroMore(z);
      assert b == [b[0]] + b[1..] && b[1..][z..] == b[z + 1..];
      hide Zeros;
    }
  }

  lemma OneZeroMore(n: nat)
    ensures Zeros(n + 1) == [0] + Zeros(n)
  {
  }

  lemma {:induction false} LeadingZerosOf(n: nat, d: seq<nat>)
    requires d == [] || d[0] > 0
    ensures LeadingZeros(Zeros(n) + d) == n
  {
    if n > 0 {
      LeadingZerosOf(n - 1, d);
      assert (Zeros(n) + d)[1..] == Zeros(n - 1) + d;
    } else {
      assert Zeros(0) + d == d;
    }
  }

  lemma {:induction false} ValAfterZeros(b: seq<nat>, base: nat)
    ensures Val(b[LeadingZeros(b)..], base) == Val(b, base)
  {
    LeadingZerosSplit(b);
    ValZeros(LeadingZeros(b), b[LeadingZeros(b)..], base);
  }

  lemma IndicesOfLetters(z: nat, d: seq<nat>)
    requires Below(d, 58)
    ensures Indices(seq(z, _ => '1') + Letters(d)) == Zeros(z) + d
  {
  }

  /** Decoding the text gives back every byte, leading zeros included. */
  lemma RoundTrip(bin: seq<byte>)
    ensures Decode(Encode(bin)) == bin
  {
    var z, v := LeadingZeros(bin), Val(bin, 256);
    var d := Digits(v, 58);
    DigitsBelow(v, 58);
    ValOfDigits(v, 58);
    IndicesOfLetters(z, d);
    LeadingZerosOf(z, d);
    ValZeros(z, d, 58);
    LeadingZerosSplit(bin);
    ValAfterZeros(bin, 256);
    DigitsOfVal(bin[z..], 256);
  }

  lemma EncodeInjective(a: seq<byte>, b: seq<byte>)
    requires Encode(a) == Encode(b)
    ensures a == b
  {
    RoundTrip(a);
    RoundTrip(b);
  }

  // ---- the working buffer is large enough ----

  /** 138/100 digits per byte, plus one, always hold n bytes; all but the last byte need one digit less. */
  lemma {:induction false} EnoughDigits(n: nat)
    ensures Pow(256, n) <= Pow(58, n * 138 / 100 + 1)
    ensures n > 0 ==> Pow(256, n - 1) <= Pow(58, n * 138 / 100)
  {
    hide Pow;
    if n <= 8 {
      EnoughDigitsSmall(n);
    } else {
      EnoughDigits(n - 8);
      EightBytes();
      StepEight(n - 8, (n - 8) * 138 / 100 + 1, n * 138 / 100 + 1);
      StepEight(n - 9, (n - 8) * 138 / 100, n * 138 / 100);
    }
  }

  lemma EightBytes()
    ensures Pow(256, 8) <= Pow(58, 11)
  {
    Squares(256);
    Squares(58);
  }

  /** Pow unrolled far enough for the constants below. */
  lemma Squares(b: nat)
    ensures Pow(b, 1) == b && Pow(b, 2) == b * b && Pow(b, 3) == b * (b * b)
    ensures Pow(b, 4) == b * (b * (b * b))
    ensures Pow(b, 5) == Pow(b, 4) * b && Pow(b, 6) == Pow(b, 4) * Pow(b, 2)
    ensures Pow(b, 7) == Pow(b, 4) * Pow(b, 3) && Pow(b, 8) == Pow(b, 4) * Pow(b, 4)
    ensures Pow(b, 9) == Pow(b, 8) * b && Pow(b, 10) == Pow(b, 8) * Pow(b, 2)
    ensures Pow(b, 11) == Pow(b, 8) * Pow(b, 3) && Pow(b, 12) == Pow(b, 8) * Pow(b, 4)
  {
    assert Pow(b, 1) == b * Pow(b, 0);
    assert Pow(b, 2) == b * Pow(b, 1);
    assert Pow(b, 3) == b * Pow(b, 2);
    assert Pow(b, 4) == b * Pow(b, 3);
    PowAdd(b, 4, 1); PowAdd(b, 4, 2); PowAdd(b, 4, 3); PowAdd(b, 4, 4);
    PowAdd(b, 8, 1); PowAdd(b, 8, 2); PowAdd(b, 8, 3); PowAdd(b, 8, 4);
  }

  lemma EnoughDigitsSmall(n: nat)
    requires n <= 8
    ensures Pow(256, n) <= Pow(58, n * 138 / 100 + 1)
    ensures n > 0 ==> Pow(256, n - 1) <= Pow(58, n * 138 / 100)
  {
    hide Pow;
    PowersOf256();
    PowersOf58();
  }

  lemma PowersOf256()
    ensures Pow(256, 0) == 1 && Pow(256, 1) == 256 && Pow(256, 2) == 65536 && Pow(256, 3) == 16777216
    ensures Pow(256, 4) == 4294967296
    ensures Pow(256, 5) == 1099511627776 && Pow(256, 6) == 281474976710656
    ensures Pow(256, 7) == 72057594037927936 && Pow(256, 8) == 18446744073709551616
  {
    hide Pow;
    Squares(256);
    PowNone(256);
  }

  lemma PowersOf58()
    ensures Pow(58, 0) == 1 && Pow(58, 1) == 58 && Pow(58, 2) == 3364 && Pow(58, 3) == 195112 && Pow(58, 4) == 11316496
    ensures Pow(58, 5) == 656356768 && Pow(58, 6) == 38068692544 && Pow(58, 7) == 2207984167552
    ensures Pow(58, 8) == 128063081718016
    ensures Pow(58, 9) == 7427658739644928 && Pow(58, 10) == 430804206899405824
    ensures Pow(58, 11) == 24986644000165537792 && Pow(58, 12) == 1449225352009601191936
  {
    hide Pow;
    Squares(58);
    PowNone(58);
  }

  lemma StepEight(m: nat, d: nat, e: nat)
    requires Pow(256, m) <= Pow(58, d) && d + 11 <= e
    requires Pow(256, 8) <= Pow(58, 11)
    ensures Pow(256, m + 8) <= Pow(58, e)
  {
    PowAdd(256, m, 8);
    PowAdd(58, d, 11);
    MulMono(Pow(256, m), Pow(58, d), Pow(256, 8), Pow(58, 11));
    PowMono(58, d + 11, e);
  }

  // ---- b58enc ----

  /**
   * Half way through multiplying `was` by 256: digits from i on are final, the carry stands at position i - 1,
   * and digits, carry and untouched head together denote the target.
   */
  ghost predicate Carrying(was: seq<nat>, now: seq<nat>, i: nat, carry: nat, target: nat) {
    && i <= |was| == |now|
    && now[..i] == was[..i]
    && Below(now, 58)
    && (256 * Val(was[..i], 58) + carry) * Pow(58, |was| - i) + Val(now[i..], 58) == target
  }

  lemma CarryStart(was: seq<nat>, b: byte)
    requires Below(was, 58)
    ensures Carrying(was, was, |was|, b, 256 * Val(was, 58) + b)
  {
    assert was[..|was|] == was;
  }

  lemma CarryStep(was: seq<nat>, now: seq<nat>, i: nat, carry: nat, digit: nat, carry': nat, target: nat)
    requires Carrying(was, now, i, carry, target) && i > 0
    requires 58 * carry' + digit == carry + 256 * now[i - 1] && digit < 58
    ensures Carrying(was, now[i - 1 := digit], i - 1, carry', target)
  {
    var head, tail, next := was[..i], now[i..], now[i - 1 := digit];
    assert head[..i - 1] == was[..i - 1] == next[..i - 1];
    assert next[i - 1..] == [digit] + tail;
    var h, p := Val(was[..i - 1], 58), Pow(58, |tail|);
    assert Val(head, 58) == h * 58 + was[i - 1];
    assert was[i - 1] == head[i - 1] == now[..i][i - 1] == now[i - 1];
    ValConcat([digit], tail, 58);
    assert Val([digit], 58) == digit by { assert [digit][..0] == []; }
    CarryArithmetic(h, was[i - 1], carry, digit, carry', p);
  }

  lemma CarryArithmetic(h: nat, d: nat, carry: nat, digit: nat, carry': nat, p: nat)
    requires 58 * carry' + digit == carry + 256 * d
    ensures (256 * h + carry') * (58 * p) + digit * p == (256 * (h * 58 + d) + carry) * p
  {
    assert (256 * h + carry') * (58 * p) == (58 * (256 * h + carry')) * p;
    assert (58 * (256 * h + carry')) * p + digit * p == (58 * (256 * h + carry') + digit) * p;
  }

  /** With no carry left and only zeros ahead, the digits are the target. */
  lemma CarryGone(was: seq<nat>, now: seq<nat>, i: nat, target: nat)
    requires Carrying(was, now, i, 0, target)
    requires forall k :: 0 <= k < i ==> was[k] == 0
    ensures Val(now, 58) == target
    ensures forall k :: 0 <= k < i ==> now[k] == 0
  {
    assert was[..i] == Zeros(i) == now[..i];
    ValOfZeros(i, 58);
    assert now == Zeros(i) + now[i..];
    ValZeros(i, now[i..], 58);
  }

  /** Once every digit is final nothing is carried out of a buffer that is large enough. */
  lemma NoCarryOut(was: seq<nat>, now: seq<nat>, carry: nat, target: nat)
    requires Carrying(was, now, 0, carry, target) && target < Pow(58, |was|)
    ensures carry == 0 && Val(now, 58) == target
  {
    assert now[0..] == now && was[..0] == [];
    if carry > 0 {
      MulMono(1, carry, Pow(58, |was|), Pow(58, |was|));
    }
  }

  /** The loop body: fold the digit at j into the carry, keep the remainder in its place. */
  method FoldDigit(buf: array<nat>, j: nat, carry: nat, ghost was: seq<nat>, ghost target: nat) returns (carry': nat)
    requires j < buf.Length && carry < 256
    requires Carrying(was, buf[..], j + 1, carry, target)
    modifies buf
    ensures carry' < 256
    ensures Carrying(was, buf[..], j, carry', target)
  {
    ghost var before := buf[..];
    var sum := carry + 256 * buf[j];
    buf[j] := sum % 58;
    carry' := sum / 58;
    assert buf[..] == before[j := sum % 58];
    CarryStep(was, before, j + 1, carry, sum % 58, carry', target);
  }

  /**
   * One turn of the outer loop: multiply the number in buf by 256 and add b.
   * Digits at or before `high` are still zero; the walk leaves them alone unless a carry reaches them.
   */
  method AbsorbByte(buf: array<nat>, b: byte, high: nat) returns (j: nat)
    requires high < buf.Length && Below(buf[..], 58)
    requires forall k :: 0 <= k <= high ==> buf[k] == 0
    requires 256 * Val(buf[..], 58) + b < Pow(58, buf.Length)
    modifies buf
    ensures Below(buf[..], 58)
    ensures Val(buf[..], 58) == 256 * old(Val(buf[..], 58)) + b
    ensures j <= high
    ensures Val(buf[..], 58) < Pow(58, buf.Length - 1) ==> forall k :: 0 <= k <= j ==> buf[k] == 0
  {
    ghost var was := buf[..];
    ghost var target := 256 * Val(was, 58) + b;
    var carry: nat := b;
    j := buf.Length - 1;
    CarryStart(was, b);
    while j > high || carry != 0
      invariant j < buf.Length && carry < 256
      invariant Carrying(was, buf[..], j + 1, carry, target)
      decreases j
    {
      carry := FoldDigit(buf, j, carry, was, target);
      if j == 0 {
        NoCarryOut(was, buf[..], carry, target);
        if buf[0] > 0 { LeadingDigit(buf[..], 58); }
        return;
      }
      j := j - 1;
    }
    CarryGone(was, buf[..], j + 1, target);
  }

  lemma ValTake(d: seq<nat>, i: nat, base: nat)
    requires i < |d|
    ensures Val(d[..i + 1], base) == base * Val(d[..i], base) + d[i]
  {
    assert d[..i + 1][..i] == d[..i];
  }

  /**
   * The number of the first i bytes after the zeros stays within the buffer, and within one digit less until the
   * end.
   */
  lemma PrefixFits(bytes: seq<byte>, i: nat)
    requires i < |bytes|
    ensures Val(bytes[..i + 1], 256) == 256 * Val(bytes[..i], 256) + bytes[i] < Pow(58, |bytes| * 138 / 100 + 1)
    ensures i + 1 < |bytes| ==> Val(bytes[..i + 1], 256) < Pow(58, |bytes| * 138 / 100)
  {
    hide Pow, Val;
    ValTake(bytes, i, 256);
    ValBound(bytes[..i + 1], 256);
    EnoughDigits(|bytes|);
    PowMono(256, i + 1, |bytes|);
    if i + 1 < |bytes| {
      PowMono(256, i + 1, |bytes| - 1);
    }
  }

  method CountZeros(bin: array<byte>) returns (zcount: nat)
    ensures zcount == LeadingZeros(bin[..])
  {
    zcount := 0;
    while zcount < bin.Length && bin[zcount] == 0
      invariant zcount <= bin.Length
      invariant LeadingZeros(bin[..]) == zcount + LeadingZeros(bin[zcount..])
    {
      assert bin[zcount..][1..] == bin[zcount + 1..];
      zcount := zcount + 1;
    }
  }

  lemma ZeroBuffer(size: nat)
    ensures Below(Zeros(size), 58) && Val(Zeros(size), 58) == 0 && Val([], 256) == 0
  {
    ValOfZeros(size, 58);
  }

  /** The conversion loops: count the zero bytes, then absorb the others one by one. */
  method Convert(bin: array<byte>) returns (buf: array<nat>, zcount: nat)
    requires bin.Length * 138 < 0x1_0000_0000
    ensures fresh(buf) && Below(buf[..], 58)
    ensures zcount == LeadingZeros(bin[..])
    ensures Val(buf[..], 58) == Val(bin[..], 256)
  {
    hide Val, Pow, LeadingZeros;
    zcount := CountZeros(bin);
    ghost var rest := bin[zcount..];
    var size := (bin.Length - zcount) * 138 / 100 + 1;
    buf := new nat[size](_ => 0);
    assert buf[..] == Zeros(size);
    ZeroBuffer(size);
    assert rest[..0] == [];
    var i, high := zcount, size - 1;
    while i < bin.Length
      invariant zcount <= i <= bin.Length && 0 <= high < size == buf.Length
      invariant Below(buf[..], 58)
      invariant Val(buf[..], 58) == Val(rest[..i - zcount], 256)
      invariant i < bin.Length ==> forall k :: 0 <= k <= high ==> buf[k] == 0
    {
      PrefixFits(rest, i - zcount);
      high := AbsorbByte(buf, bin[i], high);
      i := i + 1;
    }
    assert rest[..|rest|] == rest;
    ValAfterZeros(bin[..], 256);
  }

  /** Skipping the leading zeros of a digit buffer leaves the minimal digits of its value. */
  lemma {:induction false} SkipZeros(d: seq<nat>)
    requires Below(d, 58)
    ensures d[LeadingZeros(d)..] == Digits(Val(d, 58), 58)
  {
    LeadingZerosSplit(d);
    ValAfterZeros(d, 58);
    DigitsOfVal(d[LeadingZeros(d)..], 58);
  }

  /**
   * `b58enc`, writing at b58[out..] with b58sz characters available there. The text and its terminator are
   * written if they fit, and nothing is written if they do not; the size needed is reported either way.
   */
  method B58Enc(bin: array<byte>, b58: array<char>, out: nat, b58sz: nat) returns (ok: bool, b58sz': nat)
    requires bin.Length * 138 < 0x1_0000_0000
    requires out + b58sz <= b58.Length
    modifies b58
    ensures bin[..] == old(bin[..])
    ensures b58sz' == |Encode(bin[..])| + 1
    ensures ok <==> b58sz' <= b58sz
    ensures ok ==> b58[..] == old(b58[..out]) + Encode(bin[..]) + ['\0'] + old(b58[out + b58sz'..])
    ensures !ok ==> b58[..] == old(b58[..])
  {
    var buf, zcount := Convert(bin);
    var size, j := buf.Length, 0;
    while j < size && buf[j] == 0
      invariant j <= size
      invariant LeadingZeros(buf[..]) == j + LeadingZeros(buf[j..])
    {
      assert buf[j..][1..] == buf[j + 1..];
      j := j + 1;
    }
    ghost var digits, text := buf[j..], Encode(bin[..]);
    assert LeadingZeros(buf[..]) == j by { assert j < size ==> buf[j..][0] == buf[j]; }
    SkipZeros(buf[..]);
    assert digits == buf[..][j..];
    assert Below(digits, 58) && text == seq(zcount, _ => '1') + Letters(digits);
    if b58sz <= zcount + size - j {
      b58sz' := zcount + size - j + 1;
      return false, b58sz';
    }
    WriteText(buf, j, b58, out, zcount, digits);
    return true, zcount + size - j + 1;
  }

  /** The copying loops: the ones, the letters of the digits from j on, and the terminator. */
  method WriteText(buf: array<nat>, skip: nat, b58: array<char>, out: nat, zcount: nat, ghost digits: seq<nat>)
    requires skip <= buf.Length && digits == buf[skip..] && Below(digits, 58)
    requires out + zcount + |digits| < b58.Length
    modifies b58
    ensures b58[..] == old(b58[..out]) + (seq(zcount, _ => '1') + Letters(digits)) + ['\0']
                     + old(b58[out + zcount + |digits| + 1..])
  {
    hide Letter, Letters;
    ghost var text := seq(zcount, _ => '1') + Letters(digits);
    LettersAt(digits);
    forall k | 0 <= k < zcount {
      b58[out + k] := '1';
    }
    var i, j := zcount, skip;
    while j < buf.Length
      invariant skip <= j <= buf.Length && i - zcount == j - skip && buf[skip..] == digits
      invariant forall k :: 0 <= k < i ==> b58[out + k] == text[k]
      invariant forall k :: 0 <= k < b58.Length && !(out <= k < out + i) ==> b58[k] == old(b58[k])
    {
      assert buf[j] == digits[j - skip];
      b58[out + i] := Letter(buf[j]);
      i, j := i + 1, j + 1;
    }
    b58[out + i] := '\0';
    assert b58[out..out + i] == text;
  }
}
