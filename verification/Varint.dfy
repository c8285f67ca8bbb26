/** Variable-length integers: base 128, least significant group first, high bit set on all but the last byte. */
module Varint {
  import opened Numerals
  import opened Outcomes

  /** The number in the leading group of `s` and the bytes it takes, looking at no more than `max` bytes. */
  function Group(s: seq<byte>, max: nat): (r: Option<(nat, nat)>)
    ensures r.Some? ==> 1 <= r.value.1 <= |s| && r.value.1 <= max
  {
    if max == 0 || s == [] then None
    else if s[0] < 128 then Some((s[0], 1))
    else
      After(s[0] % 128, Group(s[1..], max - 1))
  }

  /** Seven more bits below a group already read. */
  function After(b: nat, g: Option<(nat, nat)>): Option<(nat, nat)> {
    match g
    case None => None
    case Some((v, n)) => Some((b + 128 * v, n + 1))
  }

  const BOUND32: nat := 0x1_0000_0000
  const BOUND48: nat := 0x1_0000_0000_0000

  /** What a caller gets: value and bytes read, or an overflow when the group or the value is too long. */
  function Unpacked(s: seq<byte>, max: nat, bound: nat): Result<(nat, nat)> {
    match Group(s, max)
    case None => Throw(Overflow)
    case Some((v, n)) => if v < bound then Ok((v, n)) else Throw(Overflow)
  }

  function Unpacked32(s: seq<byte>): Result<(nat, nat)> {
    Unpacked(s, 5, BOUND32)
  }

  function Unpacked48(s: seq<byte>): Result<(nat, nat)> {
    Unpacked(s, 7, BOUND48)
  }

  /** The shortest encoding of v. */
  function Pack(v: nat): (s: seq<byte>)
    ensures s != []
  {
    if v < 128 then [v] else [128 + v % 128] + Pack(v / 128)
  }

  /** Reading back what was packed, whatever follows it. */
  lemma {:induction false} GroupOfPack(v: nat, rest: seq<byte>, max: nat)
    requires max > 0 && v < Pow(128, max)
    ensures Group(Pack(v) + rest, max) == Some((v, |Pack(v)|)) && |Pack(v)| <= max
  {
    if v >= 128 {
      assert Pow(128, max) == 128 * Pow(128, max - 1);
      GroupOfPack(v / 128, rest, max - 1);
      assert (Pack(v) + rest)[1..] == Pack(v / 128) + rest;
    }
  }

  lemma Bounds()
    ensures BOUND32 <= Pow(128, 5) && BOUND48 <= Pow(128, 7)
  {
    assert Pow(128, 1) == 128;
    PowAdd(128, 1, 1);
    PowAdd(128, 2, 1);
    PowAdd(128, 2, 3);
    PowAdd(128, 5, 2);
  }

  lemma RoundTrip32(v: nat, rest: seq<byte>)
    requires v < 0x1_0000_0000
    ensures Unpacked32(Pack(v) + rest) == Ok((v, |Pack(v)|)) && |Pack(v)| <= 5
  {
    Bounds();
    GroupOfPack(v, rest, 5);
  }

  lemma RoundTrip48(v: nat, rest: seq<byte>)
    requires v < 0x1_0000_0000_0000
    ensures Unpacked48(Pack(v) + rest) == Ok((v, |Pack(v)|)) && |Pack(v)| <= 7
  {
    Bounds();
    GroupOfPack(v, rest, 7);
  }

  /** A group is decided by the bytes it counts: what follows them does not matter. */
  lemma {:induction false} GroupLocal(s: seq<byte>, t: seq<byte>, max: nat)
    requires Group(s, max).Some?
    requires Group(s, max).value.1 <= |t| && s[..Group(s, max).value.1] <= t
    ensures Group(t, max) == Group(s, max)
  {
    if s[0] >= 128 {
      var n := Group(s, max).value.1;
      assert s[..n][1..] == s[1..][..n - 1];
      assert s[..n][0] == t[0];
      GroupLocal(s[1..], t[1..], max - 1);
    }
  }

  /** What n bytes weigh, seven bits each, the first ones least. */
  function Weight(s: seq<byte>, n: nat): nat
    requires n <= |s|
  {
    if n == 0 then 0 else Weight(s, n - 1) + s[n - 1] % 128 * Pow(128, n - 1)
  }

  /** The first n bytes are a group: the last of them is the first without the high bit. */
  predicate Leads(s: seq<byte>, n: nat) {
    1 <= n <= |s| && s[n - 1] < 128 && forall k :: 0 <= k < n - 1 ==> s[k] >= 128
  }

  lemma {:induction false} WeightFront(s: seq<byte>, n: nat)
    requires 1 <= n <= |s|
    ensures Weight(s, n) == s[0] % 128 + 128 * Weight(s[1..], n - 1)
  {
    hide Pow;
    if n > 1 {
      WeightFront(s, n - 1);
      var b := s[n - 1] % 128;
      PowStep(128, n - 1);
      assert s[1..][n - 2] == s[n - 1];
      assert b * (128 * Pow(128, n - 2)) == 128 * (b * Pow(128, n - 2));
    } else {
      NoPow();
      assert Weight(s, 0) == 0 && Weight(s[1..], 0) == 0;
    }
  }

  lemma NoPow()
    ensures Pow(128, 0) == 1
  {
  }

  /** Exactly which bytes are read as a group, and what it weighs. */
  lemma {:induction false} GroupExactly(s: seq<byte>, max: nat, n: nat)
    requires Leads(s, n)
    ensures Group(s, max) == if n <= max then Some((Weight(s, n), n)) else None
  {
    WeightFront(s, n);
    if n > 1 && max > 0 {
      GroupExactly(s[1..], max - 1, n - 1);
    }
  }

  lemma {:induction false} NoGroup(s: seq<byte>, max: nat)
    requires forall k :: 0 <= k < |s| ==> s[k] >= 128
    ensures Group(s, max) == None
  {
    if s != [] && max > 0 {
      NoGroup(s[1..], max - 1);
    }
  }

  /** A 32-bit number takes at most five bytes, a 48-bit number at most seven, and anything else is an overflow. */
  lemma UnpackedExactly(s: seq<byte>, n: nat)
    requires Leads(s, n)
    ensures Unpacked32(s) == if n <= 5 && Weight(s, n) < 0x1_0000_0000 then Ok((Weight(s, n), n)) else Throw(Overflow)
    ensures Unpacked48(s)
         == if n <= 7 && Weight(s, n) < 0x1_0000_0000_0000 then Ok((Weight(s, n), n)) else Throw(Overflow)
  {
    hide Group, Weight;
    GroupExactly(s, 5, n);
    GroupExactly(s, 7, n);
  }

  lemma UnpackedNever(s: seq<byte>)
    requires forall k :: 0 <= k < |s| ==> s[k] >= 128
    ensures Unpacked32(s) == Throw(Overflow) && Unpacked48(s) == Throw(Overflow)
  {
    hide Group;
    NoGroup(s, 5);
    NoGroup(s, 7);
  }

  /** Prefixing i groups already summed up in v to what is read from the rest. */
  function Resume(v: nat, i: nat, g: Option<(nat, nat)>): Option<(nat, nat)> {
    match g
    case None => None
    case Some((w, n)) => Some((v + Pow(128, i) * w, i + n))
  }

  lemma ResumeStep(v: nat, i: nat, b: nat, g: Option<(nat, nat)>)
    ensures Resume(v, i, After(b, g))
         == Resume(v + b * Pow(128, i), i + 1, g)
  {
    if g.Some? {
      var w := g.value.0;
      assert Pow(128, i) * (b + 128 * w) == b * Pow(128, i) + (128 * Pow(128, i)) * w;
    }
  }

  /** Between two turns: i bytes read, their groups summed up in v, more to come unless the last had no high bit. */
  ghost predicate Reading(s: seq<byte>, max: nat, i: nat, v: nat, more: bool) {
    && i <= max <= |s|
    && Group(s, max) == if more then Resume(v, i, Group(s[i..], max - i)) else Some((v, i))
  }

  lemma ReadStart(s: seq<byte>, max: nat)
    requires max <= |s|
    ensures Reading(s, max, 0, 0, true)
  {
    assert s[0..] == s;
  }

  lemma ReadStep(s: seq<byte>, max: nat, i: nat, v: nat)
    requires Reading(s, max, i, v, true) && i < max
    ensures Reading(s, max, i + 1, v + (s[i] % 128) * Pow(128, i), s[i] >= 128)
  {
    hide Group, Resume, After, Pow;
    GroupAt(s, i, max - i);
    var b := s[i] % 128;
    assert s[i] < 128 ==> b == s[i];
    ResumeStep(v, i, b, Group(s[i + 1..], max - (i + 1)));
    ResumeLast(v, i, b);
  }

  lemma GroupAt(s: seq<byte>, i: nat, max: nat)
    requires i < |s| && max > 0
    ensures s[i] < 128 ==> Group(s[i..], max) == Some((s[i] as nat, 1 as nat))
    ensures s[i] >= 128 ==> Group(s[i..], max) == After(s[i] % 128, Group(s[i + 1..], max - 1))
  {
    assert s[i..][1..] == s[i + 1..] && s[i..][0] == s[i];
  }

  lemma ResumeLast(v: nat, i: nat, b: nat)
    ensures Resume(v, i, Some((b, 1))) == Some((v + b * Pow(128, i), i + 1))
  {
    assert Pow(128, i) * b == b * Pow(128, i);
  }

  /** `unpack_varint32`. The groups occupy different bits, so or-ing them in is adding them. */
  method UnpackVarint32(in_: seq<byte>) returns (r: Result<(nat, nat)>)
    requires |in_| >= 5
    ensures r == Unpacked32(in_)
  {
    var i: nat, v: nat, b: nat, bits := 0, 0, 128, 0;
    ReadStart(in_, 5);
    while b >= 128 && bits < 35
      invariant bits == 7 * i
      invariant Reading(in_, 5, i, v, b >= 128)
      decreases 35 - bits
    {
      b := in_[i];
      ReadStep(in_, 5, i, v);
      v := v + (b % 128) * Pow(128, i);
      i := i + 1;
      bits := bits + 7;
    }
    if b >= 128 {
      return Throw(Overflow);
    }
    if v >= BOUND32 {
      return Throw(Overflow);
    }
    return Ok((v, i));
  }

  /** `unpack_varint48`. */
  method UnpackVarint48(in_: seq<byte>) returns (r: Result<(nat, nat)>)
    requires |in_| >= 7
    ensures r == Unpacked48(in_)
  {
    var i: nat, v: nat, b: nat, bits := 0, 0, 128, 0;
    ReadStart(in_, 7);
    while b >= 128 && bits < 49
      invariant bits == 7 * i
      invariant Reading(in_, 7, i, v, b >= 128)
      decreases 49 - bits
    {
      b := in_[i];
      ReadStep(in_, 7, i, v);
      v := v + (b % 128) * Pow(128, i);
      i := i + 1;
      bits := bits + 7;
    }
    if b >= 128 {
      return Throw(Overflow);
    }
    if v >= BOUND48 {
      return Throw(Overflow);
    }
    return Ok((v, i));
  }
}
