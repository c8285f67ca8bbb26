/** Signatures: from DER integers to the fixed form, the test for canonical ones, and the loop that waits for one. */
module Signature {
  import opened Numerals

  /** One answer of the signer: the two integers and the parity of the point it went through. */
  datatype Candidate = Candidate(r: nat, s: nat, odd: bool)

  predicate InRange(c: Candidate) {
    c.r < Pow(256, 32) && c.s < Pow(256, 32)
  }

  // ---- encodings ----

  /** The contents octets of a non-negative INTEGER (section 8.3 of ITU-T X.690): a clear high bit, and no more. */
  function Contents(v: nat): seq<nat> {
    DigitsBelow(v, 256);
    var d := Digits(v, 256);
    if d == [] || d[0] >= 128 then [0] + d else d
  }

  function DerInteger(v: nat): seq<nat> {
    [0x02, |Contents(v)|] + Contents(v)
  }

  function DerSignature(r: nat, s: nat): seq<nat> {
    [0x30, |DerInteger(r)| + |DerInteger(s)|] + DerInteger(r) + DerInteger(s)
  }

  /** What the signer leaves: a sequence of two integers (sections 8.3 and 8.9 of ITU-T X.690). */
  lemma DerLayout(r: nat, s: nat)
    ensures var d, n, m := DerSignature(r, s), |Contents(r)|, |Contents(s)|;
      && |d| == 6 + n + m && d[0] == 0x30 && d[1] == 4 + n + m
      && d[2] == 0x02 && d[3] == n && d[4..4 + n] == Contents(r)
      && d[4 + n] == 0x02 && d[5 + n] == m && d[6 + n..] == Contents(s)
  {
    hide Contents;
  }

  /** v in exactly 32 bytes. */
  function Fixed(v: nat): seq<nat> {
    if |Digits(v, 256)| > 32 then Digits(v, 256) else Zeros(32 - |Digits(v, 256)|) + Digits(v, 256)
  }

  lemma FixedValue(v: nat)
    requires v < Pow(256, 32)
    ensures |Fixed(v)| == 32 && Below(Fixed(v), 256) && Val(Fixed(v), 256) == v
  {
    hide Val, Pow, Digits;
    DigitsLength(v, 256, 32);
    DigitsBelow(v, 256);
    ValOfDigits(v, 256);
    ValZeros(32 - |Digits(v, 256)|, Digits(v, 256), 256);
  }

  /** The length of an integer's contents and what is left of them without the leading zero. */
  lemma ContentsShape(v: nat)
    requires v < Pow(256, 32)
    ensures var c := Contents(v);
      && 1 <= |c| <= 33 && Below(c, 256)
      && (c[0] == 0 ==> c[1..] == Digits(v, 256)) && (c[0] != 0 ==> c == Digits(v, 256))
  {
    hide Pow;
    DigitsLength(v, 256, 32);
    DigitsBelow(v, 256);
  }

  // ---- the canonical range ----

  /** What the source is after: both integers take exactly 32 bytes in DER. */
  predicate Canonical(c: Candidate) {
    |Contents(c.r)| == 32 && |Contents(c.s)| == 32
  }

  /** The test on the first two bytes of a 32-byte integer. */
  predicate CanonicalBytes(hi: nat, lo: nat) {
    hi < 128 && !(hi == 0 && lo < 128)
  }

  lemma TopBytes(d: seq<nat>)
    requires |d| == 32 && Below(d, 256)
    ensures d[0] * Pow(256, 31) <= Val(d, 256) < (d[0] + 1) * Pow(256, 31)
    ensures d[0] == 0 ==> d[1] * Pow(256, 30) <= Val(d, 256) < (d[1] + 1) * Pow(256, 30)
  {
    hide Val, Pow;
    LeadingPart(d, 256);
    if d[0] == 0 {
      assert d == Zeros(1) + d[1..];
      ValZeros(1, d[1..], 256);
      LeadingPart(d[1..], 256);
    }
  }

  lemma LeadingPart(d: seq<nat>, base: nat)
    requires d != [] && Below(d, base)
    ensures var p := Pow(base, |d| - 1); d[0] * p <= Val(d, base) < (d[0] + 1) * p
  {
    hide Val, Pow;
    var rest := d[1..];
    assert d == [d[0]] + rest;
    ValConcat([d[0]], rest, base);
    OneDigit(d[0], base);
    ValBound(rest, base);
  }

  lemma OneDigit(x: nat, base: nat)
    ensures Val([x], base) == x
  {
    assert [x][..0] == [];
  }

  /** The test on the bytes is a test on the integer: it lies between 2^247 and 2^255. */
  lemma CanonicalIsRange(v: nat)
    requires v < Pow(256, 32)
    ensures |Fixed(v)| == 32
    ensures CanonicalBytes(Fixed(v)[0], Fixed(v)[1]) <==> 128 * Pow(256, 30) <= v < 128 * Pow(256, 31)
  {
    hide Val, Pow, Digits, Fixed;
    FixedValue(v);
    var d := Fixed(v);
    TopBytes(d);
    var p, q := Pow(256, 31), Pow(256, 30);
    PowStep(256, 31);
    if d[0] >= 128 {
      MulMono(128, d[0], p, p);
    } else {
      MulMono(d[0] + 1, 128, p, p);
      if d[0] > 0 {
        MulMono(1, d[0], p, p);
      } else if d[1] >= 128 {
        MulMono(128, d[1], q, q);
      } else {
        MulMono(d[1] + 1, 128, q, q);
      }
    }
  }

  /** The integers in that range are those that DER writes in exactly 32 bytes. */
  lemma RangeIsLength(v: nat)
    ensures |Contents(v)| == 32 <==> 128 * Pow(256, 30) <= v < 128 * Pow(256, 31)
  {
    hide Val, Pow, Digits;
    var d := Digits(v, 256);
    DigitsBelow(v, 256);
    ValOfDigits(v, 256);
    DigitsLength(v, 256, 30);
    DigitsLength(v, 256, 31);
    DigitsLength(v, 256, 32);
    PowStep(256, 31);
    PowStep(256, 32);
    if d != [] {
      LeadingPart(d, 256);
      TopDigit(v, d[0], Pow(256, |d| - 1));
    }
  }

  lemma TopDigit(v: nat, d: nat, p: nat)
    requires d * p <= v < (d + 1) * p
    ensures d >= 128 <==> v >= 128 * p
  {
    if d >= 128 {
      MulMono(128, d, p, p);
    } else {
      MulMono(d + 1, 128, p, p);
    }
  }

  // ---- the conversions ----

  /** The bytes of b from `at` on are s. */
  predicate Has(b: array<byte>, at: nat, s: seq<nat>)
    reads b
  {
    at + |s| <= b.Length && b[at..at + |s|] == s
  }

  /** `check_canonical`. */
  method CheckCanonical(b: array<byte>, rs: nat) returns (ok: bool)
    requires rs + 64 <= b.Length
    ensures ok <==> CanonicalBytes(b[rs], b[rs + 1]) && CanonicalBytes(b[rs + 32], b[rs + 33])
  {
    ok := !(b[rs] >= 128) && !(b[rs] == 0 && !(b[rs + 1] >= 128))
      && !(b[rs + 32] >= 128) && !(b[rs + 32] == 0 && !(b[rs + 33] >= 128));
  }

  /** Where the digits of an integer start, and how many there are. */
  method SkipZero(b: array<byte>, from: nat, ghost v: nat) returns (length: int, offset: nat)
    requires v < Pow(256, 32) && Has(b, from, DerInteger(v))
    ensures length == |Digits(v, 256)| <= 32 && offset + length == from + |DerInteger(v)|
    ensures offset >= from && Has(b, offset, Digits(v, 256))
  {
    hide Pow, Digits, Contents;
    ContentsShape(v);
    DigitsLength(v, 256, 32);
    ghost var c := Contents(v);
    ghost var der := b[from..from + |DerInteger(v)|];
    assert der[1] == |c| && der[2] == c[0] && der[2..] == c && der[3..] == c[1..];
    if b[from + 2] == 0 {
      length, offset := b[from + 1] - 1, from + 3;
    } else {
      length, offset := b[from + 1], from + 2;
    }
  }

  /** `os_memmove` to a lower place that does not reach the source. */
  method CopyBytes(b: array<byte>, from: nat, to: nat, n: nat, ghost d: seq<nat>)
    requires |d| == n && to + n <= from && Has(b, from, d)
    modifies b
    ensures Has(b, to, d)
    ensures forall k :: 0 <= k < b.Length && !(to <= k < to + n) ==> b[k] == old(b[k])
  {
    for i := 0 to n
      invariant b[to..to + i] == d[..i] && b[from..from + n] == d
      invariant forall k :: 0 <= k < b.Length && !(to <= k < to + n) ==> b[k] == old(b[k])
    {
      assert b[from + i] == b[from..from + n][i];
      b[to + i] := b[from + i];
      assert b[to..to + i + 1] == b[to..to + i] + [d[i]];
    }
  }

  /** One integer: skip a leading zero, pad on the left to 32 bytes, and copy. Returns the offset behind it. */
  method CopyInteger(b: array<byte>, from: nat, to: nat, ghost v: nat) returns (ok: bool, offset: nat)
    requires v < Pow(256, 32) && Has(b, from, DerInteger(v)) && to + 32 <= from
    modifies b
    ensures ok && offset == from + |DerInteger(v)| && Has(b, to, Fixed(v))
    ensures forall k :: 0 <= k < b.Length && !(to <= k < to + 32) ==> b[k] == old(b[k])
  {
    hide Pow, Digits, Contents, DerInteger;
    ghost var d := Digits(v, 256);
    var length, digits := SkipZero(b, from, v);
    offset := digits;
    if length < 0 || length > 32 {
      return false, offset;
    }
    var delta := PadZeros(b, to, length);
    assert b[offset..offset + length] == d;
    CopyBytes(b, offset, to + delta, length, d);
    assert b[to..to + delta] == Zeros(delta);
    PaddedIsFixed(b[to..to + 32], v, delta);
    offset := offset + length;
    ok := true;
  }

  /** Zeros in front of `length` bytes that are still to come. */
  lemma PaddedIsFixed(w: seq<nat>, v: nat, delta: nat)
    requires |w| == 32 && delta == 32 - |Digits(v, 256)| && w[..delta] == Zeros(delta) && w[delta..] == Digits(v, 256)
    ensures w == Fixed(v)
  {
    hide Digits;
    assert w == w[..delta] + w[delta..];
  }

  method PadZeros(b: array<byte>, to: nat, length: nat) returns (delta: nat)
    requires length <= 32 && to + 32 <= b.Length
    modifies b
    ensures delta == 32 - length && b[to..to + delta] == Zeros(delta)
    ensures forall k :: 0 <= k < b.Length && !(to <= k < to + 32) ==> b[k] == old(b[k])
  {
    delta := 0;
    while length + delta < 32
      invariant delta <= 32 - length && b[to..to + delta] == Zeros(delta)
      invariant forall k :: 0 <= k < b.Length && !(to <= k < to + 32) ==> b[k] == old(b[k])
    {
      b[to + delta] := 0;
      delta := delta + 1;
    }
  }

  /**
   * `ecdsa_der_to_sig`, inside the one buffer it is used on: for every pair of integers below 2^256 the result is
   * their two 32-byte forms.
   */
  method EcdsaDerToSig(b: array<byte>, der: nat, sig: nat, ghost r: nat, ghost s: nat) returns (ok: bool)
    requires r < Pow(256, 32) && s < Pow(256, 32) && Has(b, der + 2, DerInteger(r) + DerInteger(s)) && sig + 64 <= der
    modifies b
    ensures ok && Has(b, sig, Fixed(r)) && Has(b, sig + 32, Fixed(s)) && |Fixed(r)| == |Fixed(s)| == 32
    ensures forall k :: 0 <= k < b.Length && !(sig <= k < sig + 64) ==> b[k] == old(b[k])
  {
    hide Pow, DerInteger, Fixed;
    FixedValue(r);
    FixedValue(s);
    HasBoth(b, der + 2, DerInteger(r), DerInteger(s));
    var offset;
    ok, offset := CopyInteger(b, der + 2, sig, r);
    if !ok {
      return;
    }
    assert b[offset..offset + |DerInteger(s)|]
        == old(b[der + 2 + |DerInteger(r)|..der + 2 + |DerInteger(r)| + |DerInteger(s)|]);
    ghost var first := b[sig..sig + 32];
    ok, offset := CopyInteger(b, offset, sig + 32, s);
    assert b[sig..sig + 32] == first;
  }

  lemma HasBoth(b: array<byte>, at: nat, x: seq<nat>, y: seq<nat>)
    requires Has(b, at, x + y)
    ensures Has(b, at, x) && Has(b, at + |x|, y)
  {
    assert b[at..at + |x|] == b[at..at + |x + y|][..|x|];
    assert b[at + |x|..at + |x| + |y|] == b[at..at + |x + y|][|x|..];
  }

  // ---- waiting for a canonical signature ----

  /** The test of the source is exactly the property it is after. */
  lemma CheckIsCanonical(c: Candidate)
    requires InRange(c)
    ensures |Fixed(c.r)| == |Fixed(c.s)| == 32
    ensures Canonical(c) <==>
      CanonicalBytes(Fixed(c.r)[0], Fixed(c.r)[1]) && CanonicalBytes(Fixed(c.s)[0], Fixed(c.s)[1])
  {
    hide Pow, Contents, Fixed;
    CanonicalIsRange(c.r);
    CanonicalIsRange(c.s);
    RangeIsLength(c.r);
    RangeIsLength(c.s);
  }

  const DER_AT: nat := 100

  /** The signer leaves a candidate's DER form at offset 100. */
  method PutDer(b: array<byte>, c: Candidate)
    requires InRange(c) && b.Length >= DER_AT + 72
    modifies b
    ensures b[DER_AT] == 0x30 && Has(b, DER_AT + 2, DerInteger(c.r) + DerInteger(c.s))
    ensures b[..DER_AT] == old(b[..DER_AT])
  {
    hide Pow, Contents, DerSignature, DerInteger;
    DerShape(c);
    var der := DerSignature(c.r, c.s);
    PutBytes(b, DER_AT, der);
    assert b[DER_AT + 2..DER_AT + |der|] == b[DER_AT..DER_AT + |der|][2..];
  }

  method PutBytes(b: array<byte>, at: nat, s: seq<nat>)
    requires at + |s| <= b.Length && forall k :: 0 <= k < |s| ==> s[k] < 256
    modifies b
    ensures b[at..at + |s|] == s && b[..at] == old(b[..at])
  {
    for i := 0 to |s|
      invariant b[at..at + i] == s[..i] && b[..at] == old(b[..at])
    {
      b[at + i] := s[i];
      assert b[at..at + i + 1] == b[at..at + i] + [s[i]];
    }
  }

  lemma DerShape(c: Candidate)
    requires InRange(c)
    ensures var der := DerSignature(c.r, c.s);
      && 2 <= |der| <= 72 && der[0] == 0x30 && der[2..] == DerInteger(c.r) + DerInteger(c.s)
      && forall k :: 0 <= k < |der| ==> der[k] < 256
  {
    hide Pow, Contents;
    ContentsShape(c.r);
    ContentsShape(c.s);
    var der := DerSignature(c.r, c.s);
    forall k | 0 <= k < |der| ensures der[k] < 256 {
      PartOf(c, k);
    }
  }

  lemma PartOf(c: Candidate, k: nat)
    requires InRange(c) && k < |DerSignature(c.r, c.s)|
    ensures DerSignature(c.r, c.s)[k] < 256
  {
    hide Pow, Contents;
    ContentsShape(c.r);
    ContentsShape(c.s);
  }

  /** One turn of the loop: the answer is converted, and tested. */
  method TryAnswer(b: array<byte>, c: Candidate) returns (ok: bool)
    requires b.Length >= DER_AT + 72 && InRange(c)
    modifies b
    ensures ok <==> Canonical(c)
    ensures b[0] == 31 + (if c.odd then 1 else 0)
    ensures |Fixed(c.r)| == |Fixed(c.s)| == 32 && b[1..33] == Fixed(c.r) && b[33..65] == Fixed(c.s)
  {
    hide Canonical, DerInteger, Fixed, Pow, CanonicalBytes;
    Sign(b, c);
    b[0] := 27 + 4 + b[DER_AT] % 2;
    var _ := EcdsaDerToSig(b, DER_AT, 1, c.r, c.s);
    CheckIsCanonical(c);
    assert b[1..33] == Fixed(c.r) && b[33..65] == Fixed(c.s);
    ok := CheckCanonical(b, 1);
  }

  /** The answer of the signer, with the parity in it. */
  method Sign(b: array<byte>, c: Candidate)
    requires b.Length >= DER_AT + 72 && InRange(c)
    modifies b
    ensures b[DER_AT] == (if c.odd then 0x31 else 0x30) && Has(b, DER_AT + 2, DerInteger(c.r) + DerInteger(c.s))
  {
    hide DerInteger, Pow;
    PutDer(b, c);
    if c.odd {
      SetParity(b, c);
    }
  }

  /**
   * The loop of `io_seproxyhal_touch_tx_ok`, whatever the signer answers: it ends on the first candidate whose two
   * integers take exactly 32 bytes in DER, and replies with the recovery byte and their fixed forms. The answers are
   * given as a list that holds such a candidate; the loop itself knows no bound.
   */
  method TouchTxOk(b: array<byte>, answers: seq<Candidate>) returns (tries: nat, tx: nat)
    requires b.Length >= DER_AT + 72 && (forall c <- answers :: InRange(c)) && exists c <- answers :: Canonical(c)
    modifies b
    ensures tries < |answers| && Canonical(answers[tries]) && forall k :: 0 <= k < tries ==> !Canonical(answers[k])
    ensures b[0] == 31 + (if answers[tries].odd then 1 else 0)
    ensures |Fixed(answers[tries].r)| == |Fixed(answers[tries].s)| == 32
    ensures tx == 67 && b[1..33] == Fixed(answers[tries].r) && b[33..65] == Fixed(answers[tries].s)
    ensures b[65..67] == [0x90, 0x00]
  {
    hide Canonical, DerInteger, Fixed, Pow, CanonicalBytes;
    tries := 0;
    while true
      invariant tries <= |answers| && forall k :: 0 <= k < tries ==> !Canonical(answers[k])
      decreases |answers| - tries
    {
      assert tries < |answers|;
      var ok := TryAnswer(b, answers[tries]);
      if ok {
        tx := 1 + 64;
        break;
      } else {
        tries := tries + 1;
      }
    }
    b[tx] := 0x90;
    tx := tx + 1;
    b[tx] := 0x00;
    tx := tx + 1;
  }

  /** The parity goes into the low bit of the byte in front of the length, which is even. */
  method SetParity(b: array<byte>, c: Candidate)
    requires b.Length >= DER_AT + 72 && b[DER_AT] == 0x30 && Has(b, DER_AT + 2, DerInteger(c.r) + DerInteger(c.s))
    modifies b
    ensures b[DER_AT] == 0x31 && Has(b, DER_AT + 2, DerInteger(c.r) + DerInteger(c.s))
    ensures b[..DER_AT] == old(b[..DER_AT])
  {
    ghost var der := b[DER_AT + 2..DER_AT + 2 + |DerInteger(c.r) + DerInteger(c.s)|];
    b[DER_AT] := b[DER_AT] / 2 * 2 + 1;
    assert b[DER_AT + 2..DER_AT + 2 + |DerInteger(c.r) + DerInteger(c.s)|] == der;
  }
}
