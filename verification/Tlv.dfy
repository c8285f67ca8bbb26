/** Tag and length bytes in front of every field (section 8.1.3 of ITU-T X.690). */
module Tlv {
  import opened Numerals

  datatype Header = Invalid | Incomplete | Complete(length: nat)

  const OCTET_STRING: nat := 4

  /** What the bytes collected so far say. Only the tag number is looked at, not its class or form. */
  function TryDecode(h: seq<byte>): Header
    requires h != []
  {
    if h[0] % 32 != OCTET_STRING then Invalid
    else if |h| < 2 then Incomplete
    else if h[1] < 128 then Complete(h[1])
    else
      var count := h[1] - 128;
      if count > 4 then Invalid
      else if count >= |h| - 1 then Incomplete
      else Complete(Val(h[2..2 + count], 256))
  }

  /**
   * The headers of the wire, in numbers: the tag is four, whatever its class and form; a length below 128 stands for
   * itself, and otherwise one to four octets follow, of which the first counts most.
   */
  lemma HeaderSays(h: seq<byte>)
    requires h != []
    ensures TryDecode(h) == Invalid <==> h[0] % 32 != 4 || (|h| >= 2 && h[1] > 0x84)
    ensures TryDecode(h).Complete? <==>
      h[0] % 32 == 4 && |h| >= 2 && (h[1] < 0x80 || (h[1] <= 0x84 && |h| >= h[1] - 0x7E))
    ensures h[0] % 32 == 4 && |h| >= 2 && h[1] < 0x80 ==> TryDecode(h) == Complete(h[1])
    ensures h[0] % 32 == 4 && |h| >= 2 && h[1] == 0x80 ==> TryDecode(h) == Complete(0)
    ensures h[0] % 32 == 4 && |h| >= 3 && h[1] == 0x81 ==> TryDecode(h) == Complete(h[2])
    ensures h[0] % 32 == 4 && |h| >= 4 && h[1] == 0x82 ==> TryDecode(h) == Complete((h[2] as nat) * 256 + h[3])
    ensures h[0] % 32 == 4 && |h| >= 5 && h[1] == 0x83 ==>
      TryDecode(h) == Complete((h[2] as nat) * 65536 + (h[3] as nat) * 256 + h[4])
  {
    hide Val;
    if |h| >= 2 && 0x80 <= h[1] <= 0x83 && |h| >= h[1] - 0x7E {
      Octets(h[2..2 + (h[1] - 0x80)]);
    }
  }

  lemma Octets(d: seq<nat>)
    requires |d| <= 3
    ensures var v := Val(d, 256);
      && (|d| == 0 ==> v == 0) && (|d| == 1 ==> v == d[0]) && (|d| == 2 ==> v == d[0] * 256 + d[1])
      && (|d| == 3 ==> v == d[0] * 65536 + d[1] * 256 + d[2])
  {
    if |d| == 3 {
      assert d[..2][..1] == d[..1] && d[..1][..0] == [];
    } else if |d| == 2 {
      assert d[..1][..0] == [];
    }
  }

  /** A header that decodes when its last byte arrives, and not before. */
  ghost predicate IsHeader(h: seq<byte>, length: nat) {
    && 2 <= |h| <= 5
    && TryDecode(h) == Complete(length)
    && forall k :: 1 <= k < |h| ==> TryDecode(h[..k]) == Incomplete
  }

  /** The definite form of a length with the fewest bytes, as a DER encoder writes it. */
  function EncodeLength(n: nat): seq<nat> {
    if n < 128 then [n] else [128 + |Digits(n, 256)|] + Digits(n, 256)
  }

  /** Shorter fields have headers that fit tlvBuffer. */
  const MAX_LENGTH: nat := 0x100_0000

  /** No byte string of the host is as long as this. */
  const SIZE_LIMIT: nat := 0x1_0000_0000_0000_0000

  lemma Bound24()
    ensures Pow(256, 3) == MAX_LENGTH
  {
    assert Pow(256, 1) == 256;
    assert Pow(256, 2) == 256 * Pow(256, 1);
  }

  lemma Bound64()
    ensures Pow(256, 8) == SIZE_LIMIT
  {
    assert Pow(256, 1) == 256;
    PowAdd(256, 1, 1);
    PowAdd(256, 2, 2);
    PowAdd(256, 4, 4);
  }

  function EncodeHeader(n: nat): (h: seq<byte>)
    requires n < SIZE_LIMIT
  {
    Bound64();
    DigitsLength(n, 256, 8);
    DigitsBelow(n, 256);
    [OCTET_STRING] + EncodeLength(n)
  }

  /** Every header that is written starts with the tag of an octet string. */
  lemma HeaderTag(n: nat)
    requires n < 0x1_0000_0000_0000_0000
    ensures EncodeHeader(n)[0] == 0x04 && (n < 128 ==> EncodeHeader(n) == [0x04, n])
  {
    hide Digits;
  }

  /** Lengths below 2^24 travel in at most five bytes; every strict prefix is recognised as unfinished. */
  lemma HeaderRoundTrip(n: nat)
    requires n < 0x100_0000
    ensures IsHeader(EncodeHeader(n), n)
  {
    if n >= 128 {
      LongHeader(n);
    }
  }

  lemma LongHeader(n: nat)
    requires 128 <= n < MAX_LENGTH
    ensures IsHeader(EncodeHeader(n), n)
  {
    LengthDigits(n);
    var h, d := EncodeHeader(n), Digits(n, 256);
    assert h == [OCTET_STRING, 128 + |d|] + d;
    hide EncodeHeader, Digits, Val;
    LongForm(h, d);
  }

  /**
   * From 2^24 on the second byte announces more length octets than the device has room for, and it never decodes
   * them.
   */
  lemma HeaderTooLong(n: nat)
    requires 0x100_0000 <= n < 0x1_0000_0000_0000_0000
    ensures var h := EncodeHeader(n);
      |h| >= 6 && h[1] >= 132 && forall k :: 1 <= k <= 5 ==> !TryDecode(h[..k]).Complete?
  {
    hide Digits, Pow, Val;
    Bound24();
    DigitsLength(n, 256, 3);
  }

  lemma LengthDigits(n: nat)
    requires 0 < n < MAX_LENGTH
    ensures 1 <= |Digits(n, 256)| <= 3 && Val(Digits(n, 256), 256) == n
  {
    hide Digits, Val, Pow;
    Bound24();
    DigitsLength(n, 256, 3);
    DigitsBelow(n, 256);
    ValOfDigits(n, 256);
  }

  lemma LongForm(h: seq<byte>, d: seq<nat>)
    requires 1 <= |d| <= 3 && h == [OCTET_STRING, 128 + |d|] + d
    ensures IsHeader(h, Val(d, 256))
  {
    assert h[0] == OCTET_STRING && h[1] == 128 + |d| && h[2..2 + |d|] == d;
    hide Val;
    forall k | 1 <= k < |h| ensures TryDecode(h[..k]) == Incomplete {
      assert h[..k][0] == h[0];
      assert k >= 2 ==> h[..k][1] == h[1];
    }
  }

  /** Any decodable header is one in the sense above once the bytes after its own are dropped. */
  lemma HeaderShape(h: seq<byte>)
    requires |h| >= 2 && h[0] % 32 == 4
    ensures h[1] < 128 ==> IsHeader(h[..2], h[1])
    ensures 128 <= h[1] <= 131 && |h| >= 2 + (h[1] - 128) ==>
      IsHeader(h[..2 + (h[1] - 128)], Val(h[2..2 + (h[1] - 128)], 256))
    ensures h[1] == 132 ==> forall k :: 1 <= k <= |h| && k <= 5 ==> TryDecode(h[..k]) == Incomplete
  {
    if 128 <= h[1] <= 131 && |h| >= 2 + (h[1] - 128) {
      var p := h[..2 + (h[1] - 128)];
      assert p[2..] == h[2..2 + (h[1] - 128)];
      assert p[2..2 + (h[1] - 128)] == p[2..];
    }
  }

  /** `tlvTryDecode` on the first bufferLength bytes; fieldLength is written only when a length was decoded. */
  method TlvTryDecode(buffer: array<byte>, bufferLength: nat, fieldLength: nat)
    returns (decoded: bool, fieldLength': nat, valid: bool)
    requires 1 <= bufferLength <= buffer.Length
    ensures valid <==> TryDecode(buffer[..bufferLength]) != Invalid
    ensures decoded <==> TryDecode(buffer[..bufferLength]).Complete?
    ensures decoded ==> fieldLength' == TryDecode(buffer[..bufferLength]).length
    ensures !decoded ==> fieldLength' == fieldLength
  {
    fieldLength' := fieldLength;
    if buffer[0] % 32 != OCTET_STRING {
      return false, fieldLength', false;
    }
    if bufferLength < 2 {
      return false, fieldLength', true;
    }
    var left := bufferLength - 1;
    var length: nat := 0;
    if buffer[1] >= 128 {
      var count := buffer[1] - 128;
      if count > 4 {
        return false, fieldLength', false;
      }
      if count >= left {
        return false, fieldLength', true;
      }
      ghost var digits: seq<nat> := buffer[..bufferLength][2..2 + count];
      for i := 0 to count
        invariant digits == buffer[2..2 + count] && length == Val(digits[..i], 256)
      {
        assert digits[..i + 1][..i] == digits[..i];
        length := length * 256 + buffer[2 + i];
      }
      assert digits[..count] == digits;
    } else {
      length := buffer[1];
    }
    return true, length, true;
  }
}
