/** Exactly which transactions survive the way from the host to the device. */
module Acceptance {
  import opened Numerals
  import opened Outcomes
  import opened StreamSpec
  import opened StreamChunks
  import opened StreamFields
  import opened StreamMeaning
  import opened Finishing
  import opened SizeBuffer
  import opened HostEncoding
  import opened RoundTrip
  import opened Tlv
  import Varint

  function Serial(tx: Transaction): seq<byte>
    requires Writable(tx)
  {
    FlatFields(EncodeFields(TransactionValues(tx)))
  }

  // ---- what a finished run says about the transaction ----

  /** Written fields are readable or recognisably too long. */
  lemma ReadableOrLong(vs: seq<seq<byte>>)
    requires forall v <- vs :: |v| < SIZE_LIMIT
    ensures forall f <- EncodeFields(vs) :: WellFormed(f) || TooLong(f)
    ensures Values(EncodeFields(vs)) == vs
  {
    hide IsHeader, EncodeHeader;
    forall k | 0 <= k < |vs| ensures var f := EncodeFields(vs)[k]; WellFormed(f) || TooLong(f) {
      assert vs[k] in vs;
      if |vs[k]| < MAX_LENGTH {
        HeaderRoundTrip(|vs[k]|);
      } else {
        HeaderTooLong(|vs[k]|);
      }
    }
  }

  /**
   * A run that finishes at the end of what was written has read the values that were written, none of them too long.
   */
  lemma ReadAsWritten(tx: Transaction)
    requires Writable(tx) && FromStart(Serial(tx)).status == Finished && FromStart(Serial(tx)).rest == []
    ensures Agrees(FromStart(Serial(tx)).snap, TransactionValues(tx)) && FromStart(Serial(tx)).snap.state == Done
    ensures ExtensionValue(tx) != [] && forall v <- TransactionValues(tx) :: |v| < MAX_LENGTH
  {
    hide Run, Agrees, TransactionValues, EncodeFields, WellFormed, TooLong, FlatFields, Values;
    var vs := TransactionValues(tx);
    InitAgrees();
    InitValid();
    var fs := FinishedRunAgrees(Init(), [], Serial(tx));
    ReadableOrLong(vs);
    assert FlatFields(fs) + [] == FlatFields(fs);
    SameFields(fs, EncodeFields(vs));
    assert [] + vs == vs;
    LastIsExtension(tx);
    ShortIfWellFormed(vs);
  }

  lemma ShortIfWellFormed(vs: seq<seq<byte>>)
    requires (forall v <- vs :: |v| < SIZE_LIMIT) && AllWellFormed(EncodeFields(vs))
    ensures forall v <- vs :: |v| < MAX_LENGTH
  {
    hide EncodeHeader, WellFormed;
    forall k | 0 <= k < |vs| ensures |vs[k]| < MAX_LENGTH {
      var f := EncodeFields(vs)[k];
      assert WellFormed(f);
      if |vs[k]| >= MAX_LENGTH {
        HeaderTooLong(|vs[k]|);
        NotLong(f, [], f, []);
      }
    }
  }

  /** The device knows every operation as it was sent, having read all of the stream. */
  ghost predicate Received(tx: Transaction)
    requires Writable(tx)
  {
    var r := FromStart(Serial(tx));
    && r.status == Finished && r.rest == [] && r.snap.opCount == |tx.operations|
    && forall i :: 0 <= i < |tx.operations| ==> Recovered(tx, r.snap, i)
  }

  lemma IdsShort(tx: Transaction, s: Snapshot, i: nat)
    requires Agrees(s, TransactionValues(tx)) && i < |tx.operations| == s.opCount && Recovered(tx, s, i)
    ensures tx.operations[i].id < 128
  {
    hide TransactionValues, Slice, Valid, Count, Readable;
    ValuesAt(tx, i);
    assert IdAgrees(s, TransactionValues(tx), i);
    OneByteCount(tx.operations[i].id);
  }

  /** All that was received is as the device demands. */
  lemma ReceivedAcceptable(tx: Transaction)
    requires Writable(tx) && Received(tx)
    ensures Acceptable(tx)
  {
    hide TransactionValues, Serial, FromStart, Agrees, Recovered, Finishes, Count, Readable, CacheUse, SupportedBytes;
    var s, vs := FromStart(Serial(tx)).snap, TransactionValues(tx);
    ReadAsWritten(tx);
    AgreesTaken(s, vs);
    ValuesLength(tx);
    forall i | 0 <= i < |tx.operations| ensures tx.operations[i].id < 128 && |tx.operations[i].payload| < MAX_LENGTH {
      IdsShort(tx, s, i);
      ValuesAt(tx, i);
      assert vs[6 + 2 * i] in vs;
    }
    CacheAsSent(tx, |tx.operations|);
    assert tx.operations[..|tx.operations|] == tx.operations;
    FinishesParts(vs, |tx.operations|);
    assert vs[0] in vs && vs[1] in vs && vs[2] in vs && vs[3] in vs;
  }

  lemma FinishesParts(vs: seq<seq<byte>>, n: nat)
    requires Finishes(vs) && |vs| == 6 + 2 * n
    ensures TX_MIN_OPERATIONS <= n <= TX_MAX_OPERATIONS && CacheUse(vs, n) <= CACHE_SIZE
    ensures Readable(vs[5 + 2 * n]) && Count(vs[5 + 2 * n]) == 0
  {
    hide Count, Readable, CacheUse;
  }

  // ---- what leaves sizeBuffer ----

  /** Only the entry for the extensions can be too long for sizeBuffer, and only if the device gets to it. */
  ghost predicate OverlongExtension(tx: Transaction) {
    var vs := TransactionValues(tx);
    && |ExtensionValue(tx)| > 12 && 1 <= |tx.operations| <= 4
    && (forall v <- vs :: |v| < 0x100_0000) && CacheUse(vs, |tx.operations|) <= 768
  }

  lemma {:induction false} LongPack(v: nat, rest: seq<byte>, max: nat)
    requires v >= Pow(128, max)
    ensures Varint.Group(Varint.Pack(v) + rest, max) == None
  {
    if max > 0 {
      PowPositive(128, max - 1);
      assert v >= 128;
      QuotientAbove(v, Pow(128, max - 1));
      LongPack(v / 128, rest, max - 1);
      assert (Varint.Pack(v) + rest)[1..] == Varint.Pack(v / 128) + rest;
    }
  }

  lemma QuotientAbove(v: nat, p: nat)
    requires v >= 128 * p
    ensures v / 128 >= p
  {
  }

  lemma {:induction false} PackLength(v: nat, n: nat)
    requires v < Pow(128, n) && n > 0
    ensures |Varint.Pack(v)| <= n
  {
    Varint.GroupOfPack(v, [], n);
  }

  lemma SizesOf128()
    ensures Pow(128, 10) > SIZE_LIMIT && Pow(128, 5) == 0x8_0000_0000
  {
    assert Pow(128, 1) == 128;
    PowAdd(128, 1, 1);
    PowAdd(128, 2, 1);
    PowAdd(128, 2, 3);
    PowAdd(128, 5, 5);
  }

  /** The number of operations takes at most ten bytes, and is read back if it can be read at all. */
  lemma SizeReadBack(n: nat)
    requires n < SIZE_LIMIT
    ensures |Varint.Pack(n)| <= 10
    ensures Readable(Varint.Pack(n)) ==> Count(Varint.Pack(n)) == n
  {
    hide Varint.Group, Pow;
    SizesOf128();
    PackLength(n, 10);
    var rest := Zeros(SIZE_BUFFER - |Varint.Pack(n)|);
    if n < Pow(128, 5) {
      Varint.GroupOfPack(n, rest, 5);
    } else {
      LongPack(n, rest, 5);
    }
  }

  /** What has been taken of a transaction, if its operation count is among it. */
  lemma TakenCount(tx: Transaction, k: nat)
    requires Writable(tx) && 4 < k <= |TransactionValues(tx)| && Taken(TransactionValues(tx)[..k])
    ensures TX_MIN_OPERATIONS <= |tx.operations| <= TX_MAX_OPERATIONS
    ensures Declared(TransactionValues(tx)[..k]) == |tx.operations|
  {
    hide TransactionValues, Readable, Count, CacheUse;
    ValuesLength(tx);
    SizeReadBack(|tx.operations|);
    assert TransactionValues(tx)[..k][4] == TransactionValues(tx)[4];
  }

  lemma {:induction false} CacheOfPrefix(vs: seq<seq<byte>>, k: nat, n: nat)
    requires k <= |vs| && 6 + 2 * n <= k + 1
    ensures CacheUse(vs[..k], n) == CacheUse(vs, n)
  {
    hide Count, Supported;
    if n > 0 {
      CacheOfPrefix(vs, k, n - 1);
    }
  }

  /** A field that is too long for sizeBuffer is the last one. */
  lemma LongFieldIsLast(tx: Transaction, k: nat)
    requires Writable(tx) && LongField(EncodeFields(TransactionValues(tx)), k)
    ensures OverlongExtension(tx)
  {
    hide TransactionValues, EncodeFields, Values, LongField, Taken, NumberDue, AllWellFormed;
    var vs, n := TransactionValues(tx), |tx.operations|;
    ValuesLength(tx);
    LongFieldValues(vs, k);
    SizeReadBack(n);
    DueAt(vs, k);
    TakenCount(tx, k);
    if k < 5 + 2 * n {
      ValuesAt(tx, (k - 5) / 2);
    }
    TakenFits(vs, k, n);
    ShortFields(vs, k);
  }

  lemma LongFieldValues(vs: seq<seq<byte>>, k: nat)
    requires (forall v <- vs :: |v| < SIZE_LIMIT) && LongField(EncodeFields(vs), k)
    ensures k < |vs| && |vs[k]| > SIZE_BUFFER && Taken(vs[..k]) && NumberDue(vs[..k])
    ensures AllWellFormed(EncodeFields(vs)[..k + 1])
  {
    hide Taken, NumberDue, AllWellFormed, EncodeField;
    ReadableOrLong(vs);
    assert Values(EncodeFields(vs))[k] == EncodeFields(vs)[k].value;
  }

  lemma DueAt(vs: seq<seq<byte>>, k: nat)
    requires k <= |vs| && NumberDue(vs[..k])
    ensures k == 4 || (k > 4 && k % 2 == 1 && k < 6 + 2 * Declared(vs[..k]))
  {
    hide Count;
  }

  lemma TakenFits(vs: seq<seq<byte>>, k: nat, n: nat)
    requires k <= |vs| && Taken(vs[..k]) && k == 5 + 2 * n && Declared(vs[..k]) == n
    ensures CacheUse(vs, n) <= CACHE_SIZE
  {
    hide Count, Readable, CacheUse;
    CacheOfPrefix(vs, k, n);
  }

  lemma ShortFields(vs: seq<seq<byte>>, k: nat)
    requires (forall v <- vs :: |v| < SIZE_LIMIT) && k + 1 == |vs| && AllWellFormed(EncodeFields(vs)[..k + 1])
    ensures forall v <- vs :: |v| < MAX_LENGTH
  {
    hide EncodeField, WellFormed;
    assert EncodeFields(vs)[..k + 1] == EncodeFields(vs);
    ShortIfWellFormed(vs);
  }

  lemma OverlongIsField(tx: Transaction)
    requires Writable(tx) && OverlongExtension(tx)
    ensures LongField(EncodeFields(TransactionValues(tx)), 5 + 2 * |tx.operations|)
  {
    hide TransactionValues, Readable, Count, CacheUse, WellFormed, EncodeField;
    var vs, n := TransactionValues(tx), |tx.operations|;
    var fs, k := EncodeFields(vs), 5 + 2 * n;
    ValuesLength(tx);
    EncodedWellFormed(vs);
    ShortPack(n);
    CacheOfPrefix(vs, k, n);
    forall i | 0 <= i < n ensures Readable(vs[..k][5 + 2 * i]) {
      ValuesAt(tx, i);
      OneByteCount(tx.operations[i].id);
    }
    assert Values(fs)[..k] == vs[..k] && vs[..k][4] == vs[4] && fs[..k + 1] == fs;
    assert Taken(vs[..k]) && NumberDue(vs[..k]);
    assert fs[k].value == vs[k] by { assert Values(fs)[k] == fs[k].value; }
  }

  lemma OverrunsOnExtension(tx: Transaction)
    requires Writable(tx)
    ensures FromStart(Serial(tx)).status == Overrun <==> OverlongExtension(tx)
  {
    hide FromStart, TransactionValues, EncodeFields, FlatFields, LongField, OverlongExtension, WellFormed, TooLong;
    var vs := TransactionValues(tx);
    ReadableOrLong(vs);
    FieldsOverrun(EncodeFields(vs));
    if FromStart(Serial(tx)).status == Overrun {
      var k :| LongField(EncodeFields(vs), k);
      LongFieldIsLast(tx, k);
    }
    if OverlongExtension(tx) {
      OverlongIsField(tx);
    }
  }

  /**
   * An entry of thirteen zero bytes, with which all else may be as the device demands; its first twelve read as
   * zero.
   */
  lemma ThirteenZeros(tx: Transaction)
    requires tx.extension == Some(Zeros(13)) && Acceptable(tx.(extension := None))
    ensures Writable(tx) && FromStart(Serial(tx)).status == Overrun
    ensures Readable(Zeros(13)[..12]) && Count(Zeros(13)[..12]) == 0
  {
    hide FromStart, TransactionValues, FlatFields, EncodeFields, Count, Readable, CacheUse, SupportedBytes;
    var without := tx.(extension := None);
    ShortValues(without);
    SameButLast(tx, without);
    AcceptableFinishes(without);
    FinishesParts(TransactionValues(without), |tx.operations|);
    SameCache(TransactionValues(tx), TransactionValues(without), |tx.operations|);
    OverrunsOnExtension(tx);
    TwelveZeros();
  }

  lemma SameCache(vs: seq<seq<byte>>, ws: seq<seq<byte>>, n: nat)
    requires |vs| == |ws| == 6 + 2 * n && vs[..5 + 2 * n] == ws[..5 + 2 * n]
    ensures CacheUse(vs, n) == CacheUse(ws, n)
  {
    hide CacheUse;
    CacheOfPrefix(vs, 5 + 2 * n, n);
    CacheOfPrefix(ws, 5 + 2 * n, n);
  }

  lemma SameButLast(tx: Transaction, without: Transaction)
    requires without == tx.(extension := None) && tx.extension == Some(Zeros(13))
    requires forall v <- TransactionValues(without) :: |v| < MAX_LENGTH
    ensures |TransactionValues(tx)| == |TransactionValues(without)| == 6 + 2 * |tx.operations|
    ensures TransactionValues(tx)[..5 + 2 * |tx.operations|] == TransactionValues(without)[..5 + 2 * |tx.operations|]
    ensures forall v <- TransactionValues(tx) :: |v| < MAX_LENGTH
  {
    ValuesLength(tx);
    ValuesLength(without);
    var vs, ws := TransactionValues(tx), TransactionValues(without);
    forall k | 0 <= k < |vs| ensures |vs[k]| < MAX_LENGTH {
      if k < |vs| - 1 {
        assert vs[k] == ws[k];
      }
    }
  }

  lemma TwelveZeros()
    ensures Zeros(13)[..SIZE_BUFFER] == Zeros(SIZE_BUFFER)
    ensures Readable(Zeros(SIZE_BUFFER)) && Count(Zeros(SIZE_BUFFER)) == 0
  {
    assert Padded(Zeros(SIZE_BUFFER)) == Zeros(SIZE_BUFFER);
  }

  /** A transaction of a single transfer, with at most 768 bytes, is received: its operation and its payload. */
  lemma OneTransfer(tx: Transaction)
    requires |tx.operations| == 1 && tx.operations[0].id == 0 && |tx.operations[0].payload| <= 768
    requires |tx.chainId| < 0x100_0000 && |tx.refBlockNum| < 0x100_0000
    requires |tx.refBlockPrefix| < 0x100_0000 && |tx.expiration| < 0x100_0000 && tx.extension == None
    ensures Writable(tx)
    ensures var r, payload := FromStart(Serial(tx)), tx.operations[0].payload;
      && r.status == Finished && r.rest == [] && r.snap.opCount == 1 && |r.snap.opIds| == 4 && r.snap.opIds[0] == 0
      && |r.snap.cache| == 768 && r.snap.cache[..|payload|] == payload
  {
    hide FromStart, TransactionValues, FlatFields, EncodeFields, Count, Readable, SupportedBytes, Valid;
    OneByteCount(0);
    OneSupported(tx.operations);
    TransactionRoundTrip(tx);
    assert Recovered(tx, FromStart(Serial(tx)).snap, 0);
    OneSlice(FromStart(Serial(tx)).snap, tx.operations[0].payload);
  }

  lemma OneSupported(ops: seq<HostOperation>)
    requires |ops| == 1 && ops[0].id == 0
    ensures SupportedBytes(ops) == |ops[0].payload|
  {
    assert ops[..0] == [];
  }

  lemma OneSlice(s: Snapshot, payload: seq<byte>)
    requires Valid(s) && s.state == Done && s.opCount == 1 && Slice(s, 0) == payload
    ensures |s.opIds| == 4 && |s.cache| == 768 && |payload| <= 768 && s.cache[..|payload|] == payload
  {
    assert Start(s.offsets, 0) <= s.offsets[0] <= |s.cache|;
  }

  /**
   * The limits of the round trip are exact. Of all transactions the host can hold in memory, those with an entry for
   * the extensions of more than twelve bytes that the device gets to make it leave sizeBuffer, and nothing is said of
   * them. Of all others the device receives as they were sent those that are acceptable, and no others: one to four
   * operations with ids below 128, fields of less than 2^24 bytes, supported payloads that fit the cache together,
   * and an entry for the extensions, if any, of at most twelve bytes that says zero.
   */
  lemma ReceivedExactly(tx: Transaction)
    requires Writable(tx)
    ensures FromStart(Serial(tx)).status == Overrun <==> OverlongExtension(tx)
    ensures !OverlongExtension(tx) ==> (Received(tx) <==> Acceptable(tx))
    ensures Acceptable(tx) ==> !OverlongExtension(tx)
  {
    hide FromStart, TransactionValues, EncodeFields, FlatFields, Recovered, Acceptable, OverlongExtension;
    OverrunsOnExtension(tx);
    if Received(tx) {
      ReceivedAcceptable(tx);
    }
    if Acceptable(tx) {
      TransactionRoundTrip(tx);
    }
  }
}
