/** What the host writes, the device reads: every acceptable transaction is recovered from its encoding. */
module RoundTrip {
  import opened Numerals
  import opened Outcomes
  import opened StreamSpec
  import opened StreamChunks
  import opened StreamFields
  import opened StreamMeaning
  import opened Finishing
  import opened HostEncoding
  import opened Tlv
  import Varint

  /** One byte is read back as itself exactly when its high bit is clear. */
  lemma OneByteCount(b: byte)
    ensures Count([b]) == b <==> b < 128
    ensures Readable([b])
  {
    var p := Padded([b]);
    assert p == [b] + Zeros(11) && p[0] == b && p[1..][0] == 0;
    assert Varint.Group(p[1..], 4) == Some((0 as nat, 1 as nat));
  }

  lemma ShortPack(n: nat)
    requires n < 128
    ensures Varint.Pack(n) == [n] && Count(Varint.Pack(n)) == n && Readable(Varint.Pack(n))
  {
    OneByteCount(n);
  }

  // ---- the limits of the device are those of an acceptable transaction ----

  lemma OneMoreSupported(ops: seq<HostOperation>, i: nat)
    requires i < |ops|
    ensures SupportedBytes(ops[..i + 1]) == SupportedBytes(ops[..i])
        + if Supported(ops[i].id) then |ops[i].payload| else 0
  {
    assert ops[..i + 1][..i] == ops[..i];
  }

  /** What the values take of the cache is what the supported payloads take. */
  lemma {:induction false} CacheAsSent(tx: Transaction, j: nat)
    requires j <= |tx.operations| && forall o <- tx.operations :: o.id < 128
    ensures CacheUse(TransactionValues(tx), j) == SupportedBytes(tx.operations[..j])
  {
    hide TransactionValues, Supported, Count, Readable;
    if j > 0 {
      CacheAsSent(tx, j - 1);
      ValuesAt(tx, j - 1);
      OneByteCount(tx.operations[j - 1].id);
      OneMoreSupported(tx.operations, j - 1);
    }
  }

  lemma AcceptableFinishes(tx: Transaction)
    requires Acceptable(tx)
    ensures Finishes(TransactionValues(tx))
  {
    hide TransactionValues, Supported, Count, Readable, CacheUse, SupportedBytes;
    var vs := TransactionValues(tx);
    ValuesLength(tx);
    ShortPack(|tx.operations|);
    forall i | 0 <= i < |tx.operations| ensures Readable(vs[5 + 2 * i]) {
      ValuesAt(tx, i);
      OneByteCount(tx.operations[i].id);
    }
    CacheAsSent(tx, |tx.operations|);
    assert tx.operations[..|tx.operations|] == tx.operations;
  }

  /** Every field of an acceptable transaction is short enough for the device. */
  lemma ShortValues(tx: Transaction)
    requires Acceptable(tx)
    ensures Writable(tx) && forall v <- TransactionValues(tx) :: |v| < MAX_LENGTH
  {
    hide TransactionValues, Count, Padded;
    var vs := TransactionValues(tx);
    ValuesLength(tx);
    ShortPack(|tx.operations|);
    forall k | 0 <= k < |vs| ensures |vs[k]| < MAX_LENGTH {
      if 5 <= k < |vs| - 1 {
        ValuesAt(tx, (k - 5) / 2);
      }
    }
  }

  lemma EncodedWellFormed(vs: seq<seq<byte>>)
    requires forall v <- vs :: |v| < MAX_LENGTH
    ensures AllWellFormed(EncodeFields(vs)) && Values(EncodeFields(vs)) == vs
  {
    hide IsHeader;
    forall k | 0 <= k < |vs| ensures WellFormed(EncodeFields(vs)[k]) {
      assert vs[k] in vs;
      HeaderRoundTrip(|vs[k]|);
    }
  }

  lemma LastIsExtension(tx: Transaction)
    requires Writable(tx)
    ensures var fs := EncodeFields(TransactionValues(tx)); fs != [] && fs[|fs| - 1].value == ExtensionValue(tx)
  {
    hide TransactionValues;
    ValuesLength(tx);
  }

  /** The encoding of an acceptable transaction is read to its end. */
  lemma EncodingRead(tx: Transaction)
    requires Acceptable(tx)
    ensures Writable(tx)
    ensures var r := FromStart(FlatFields(EncodeFields(TransactionValues(tx))));
      r.status == Finished && r.rest == [] && r.snap.state == Done && Agrees(r.snap, TransactionValues(tx))
  {
    hide TransactionValues, EncodeFields, FlatFields, Values, AllWellFormed, FromStart, Finishes, Agrees;
    var vs := TransactionValues(tx);
    ShortValues(tx);
    var fs := EncodeFields(vs);
    EncodedWellFormed(vs);
    AcceptableFinishes(tx);
    LastIsExtension(tx);
    assert FlatFields(fs) + [] == FlatFields(fs);
    ReadsAll(fs, []);
  }

  /**
   * The round trip: the device finishes exactly at the end of the encoding, having hashed every value, and knows
   * the operations in order, each supported payload byte for byte.
   */
  lemma TransactionRoundTrip(tx: Transaction)
    requires Acceptable(tx)
    ensures Writable(tx)
    ensures var r := FromStart(FlatFields(EncodeFields(TransactionValues(tx))));
      && r.status == Finished && r.rest == [] && r.snap.state == Done
      && r.snap.msgHash == Flat(TransactionValues(tx)) && r.snap.txIdHash == Flat(TransactionValues(tx)[1..])
      && r.snap.opCount == |tx.operations|
      && forall i :: 0 <= i < |tx.operations| ==> Recovered(tx, r.snap, i)
  {
    hide TransactionValues, EncodeFields, FlatFields, FromStart, Valid, PhaseAgrees, OperationsAgree, Acceptable;
    EncodingRead(tx);
    AgreementRecovers(tx, FromStart(FlatFields(EncodeFields(TransactionValues(tx)))).snap);
  }

  lemma AgreementRecovers(tx: Transaction, s: Snapshot)
    requires Acceptable(tx) && Agrees(s, TransactionValues(tx)) && s.state == Done
    ensures s.opCount == |tx.operations|
    ensures forall i :: 0 <= i < |tx.operations| ==> Recovered(tx, s, i)
    ensures TransactionValues(tx) != []
  {
    hide TransactionValues, Slice, Valid, Count, Readable;
    var vs := TransactionValues(tx);
    ValuesLength(tx);
    ShortPack(|tx.operations|);
    forall i | 0 <= i < |tx.operations| ensures Recovered(tx, s, i) {
      ValuesAt(tx, i);
      assert IdAgrees(s, vs, i) && PayloadAgrees(s, vs, i);
      OneByteCount(tx.operations[i].id);
    }
  }

  /** Operation i is known by its id and, if supported, its payload is in its slice of the cache. */
  ghost predicate Recovered(tx: Transaction, s: Snapshot, i: nat) {
    && i < |tx.operations| && i < |s.opIds| && s.opIds[i] == tx.operations[i].id
    && Slice(s, i) == if tx.operations[i].id in {0, 1, 2, 6, 8} then tx.operations[i].payload else []
  }
}
