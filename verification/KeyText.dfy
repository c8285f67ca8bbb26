/** Public keys as text: "BTS" followed by the base58 of the key and four checksum bytes. */
module KeyText {
  import opened Numerals
  import opened Outcomes
  import Base58

  /** RIPEMD-160 as an arbitrary function to 20 bytes. */
  type Digest = d: seq<byte> | |d| == 20 witness Zeros(20)
  type Ripemd160 = seq<byte> -> Digest

  type Key = k: seq<byte> | |k| == 33 witness Zeros(33)

  function Text(key: Key, ripemd: Ripemd160): string {
    "BTS" + Base58.Encode(key + ripemd(key)[..4])
  }

  /** Key and checksum can be read back behind the prefix, so two keys never share a text. */
  lemma TextDecodes(key: Key, ripemd: Ripemd160)
    ensures |Text(key, ripemd)| >= 3 && Text(key, ripemd)[..3] == "BTS"
    ensures Base58.Decode(Text(key, ripemd)[3..]) == key + ripemd(key)[..4]
    ensures |Base58.Decode(Text(key, ripemd)[3..])| == 37
    ensures Base58.Decode(Text(key, ripemd)[3..])[..33] == key
  {
    assert Text(key, ripemd)[3..] == Base58.Encode(key + ripemd(key)[..4]);
    Base58.RoundTrip(key + ripemd(key)[..4]);
  }

  lemma {:induction false} BytesFit(m: nat)
    requires m <= 37
    ensures Pow(256, m) <= Pow(58, m + 14)
    decreases 37 - m
  {
    hide Pow;
    if m == 37 {
      TopFits();
    } else {
      BytesFit(m + 1);
      PowStep(256, m + 1);
      PowStep(58, m + 15);
    }
  }

  /** 256^37 is below 58^51. */
  lemma TopFits()
    ensures Pow(256, 37) <= Pow(58, 51)
  {
    hide Pow;
    Base58.EightBytes();
    Base58.EnoughDigitsSmall(5);
    Base58.StepEight(5, 7, 18);
    Base58.StepEight(13, 18, 29);
    Base58.StepEight(21, 29, 40);
    Base58.StepEight(29, 40, 51);
  }

  lemma EncodingLength(bin: seq<byte>)
    requires |bin| == 37
    ensures |Base58.Encode(bin)| <= 51
  {
    var z := Base58.LeadingZeros(bin);
    Base58.ValAfterZeros(bin, 256);
    ValBound(bin[z..], 256);
    BytesFit(37 - z);
    DigitsFit(Val(bin, 256), Pow(256, 37 - z), 51 - z);
  }

  lemma DigitsFit(v: nat, bound: nat, n: nat)
    requires v < bound <= Pow(58, n)
    ensures |Digits(v, 58)| <= n
  {
    DigitsLength(v, 58, n);
  }

  /** A key's text has at most 54 characters, whatever the key and its checksum. */
  lemma TextLength(key: Key, ripemd: Ripemd160)
    ensures |Text(key, ripemd)| <= 54
  {
    EncodingLength(key + ripemd(key)[..4]);
  }

  /** A C string function finds the end of a key's text where it ends, and a reader its end in a list. */
  lemma TextNoEnd(key: Key, ripemd: Ripemd160)
    ensures '\0' !in Text(key, ripemd) && ':' !in Text(key, ripemd)
  {
    var bin := key + ripemd(key)[..4];
    var z, d := Base58.LeadingZeros(bin), Digits(Val(bin, 256), 58);
    hide Val, Digits, Base58.LeadingZeros;
    DigitsBelow(Val(bin, 256), 58);
    assert Text(key, ripemd) == "BTS" + (seq(z, _ => '1') + Base58.Letters(d));
    assert forall k :: 0 <= k < |d| ==> Base58.Letter(d[k]) != '\0' && Base58.Letter(d[k]) != ':';
  }

  /** The 37 bytes to be encoded: the key and the first four bytes of its digest. */
  method WithChecksum(publicKey: array<byte>, ripemd: Ripemd160) returns (temp: array<byte>)
    requires publicKey.Length >= 33
    ensures fresh(temp) && temp[..] == publicKey[..33] + ripemd(publicKey[..33])[..4]
  {
    temp := new byte[37](_ => 0);
    forall k | 0 <= k < 33 { temp[k] := publicKey[k]; }
    ghost var key := publicKey[..33];
    assert temp[..33] == key;
    var check := ripemd(temp[..33]);
    forall k | 0 <= k < 4 { temp[33 + k] := check[k]; }
    assert temp[..33] == key && temp[33..] == check[..4];
    assert temp[..] == temp[..33] + temp[33..];
    assert publicKey[..33] == key && check == ripemd(key);
  }

  /**
   * `compressed_public_key_to_wif`. The result of `b58enc` is dropped, yet a text that does not fit always ends
   * in Overflow: the size reported on failure is one more than the room that was offered.
   */
  method CompressedPublicKeyToWif(publicKey: array<byte>, out: array<char>, outLength: nat, ripemd: Ripemd160)
    returns (r: Result<nat>)
    requires outLength <= out.Length
    modifies out
    ensures publicKey[..] == old(publicKey[..])
    ensures r == Throw(InvalidParameter) <==> publicKey.Length < 33
    ensures publicKey.Length >= 33 ==>
      var text := Text(publicKey[..33], ripemd);
      && (r.Ok? <==> outLength >= 40 && |text| + 1 < outLength)
      && (r.Ok? ==> r.value == |text| + 1 && out[..|text|] == text && out[|text|] == '\0')
    ensures r.Throw? ==> r.error == Overflow || r.error == InvalidParameter
    ensures out[outLength..] == old(out[outLength..])
  {
    if publicKey.Length < 33 {
      return Throw(InvalidParameter);
    }
    if outLength < 40 {
      return Throw(Overflow);
    }
    var temp := WithChecksum(publicKey, ripemd);
    var addressLen := PutText(temp, out, outLength, publicKey[..33], ripemd);
    if addressLen + 3 >= outLength {
      return Throw(Overflow);
    }
    return Ok(addressLen + 3);
  }

  /** The prefix, and the conversion behind it. */
  method PutText(temp: array<byte>, out: array<char>, outLength: nat, ghost key: Key, ghost ripemd: Ripemd160)
    returns (addressLen: nat)
    requires 40 <= outLength <= out.Length && temp[..] == key + ripemd(key)[..4]
    modifies out
    ensures var text := Text(key, ripemd);
      && (addressLen + 3 < outLength <==> |text| + 1 < outLength)
      && (addressLen + 3 < outLength ==> addressLen + 3 == |text| + 1 && out[..|text|] == text && out[|text|] == '\0')
    ensures out[outLength..] == old(out[outLength..])
  {
    hide Base58.Encode;
    forall k | 0 <= k < outLength { out[k] := '\0'; }
    out[0], out[1], out[2] := 'B', 'T', 'S';
    ghost var bin, before := temp[..], out[..];
    assert bin == key + ripemd(key)[..4];
    assert before[..3] == "BTS" && before[outLength..] == old(out[outLength..]);
    var _, len := Base58.B58Enc(temp, out, 3, outLength - 3);
    addressLen := len;
    if addressLen + 3 < outLength {
      assert out[..] == before[..3] + Base58.Encode(bin) + ['\0'] + before[3 + len..];
      assert out[..len + 2] == Text(key, ripemd);
    }
  }

  /** The 56 characters every caller offers are always enough: the conversion of a 33-byte key never throws. */
  method PrettyPrintPublicKey(key: Key, buffer: array<char>, ripemd: Ripemd160) returns (r: Result<nat>)
    requires buffer.Length >= 56
    modifies buffer
    ensures r == Ok(|Text(key, ripemd)|)
    ensures |Text(key, ripemd)| < 56 && buffer[..|Text(key, ripemd)|] == Text(key, ripemd)
    ensures buffer[|Text(key, ripemd)|] == '\0'
    ensures buffer[56..] == old(buffer[56..])
  {
    var k := new byte[33](i requires 0 <= i < 33 => key[i]);
    assert k[..] == key && k[..33] == key;
    var len := CompressedPublicKeyToWif(k, buffer, 56, ripemd);
    TextLength(key, ripemd);
    return Ok(len.value - 1);
  }
}
