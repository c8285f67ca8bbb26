/** The host side of the protocol: a transaction as a flat sequence of DER fields. */
module HostEncoding {
  import opened Numerals
  import opened Outcomes
  import opened StreamSpec
  import opened StreamFields
  import opened StreamMeaning
  import opened Tlv
  import Varint

  datatype HostOperation = HostOperation(id: byte, payload: seq<byte>)

  datatype Transaction = Transaction(
    chainId: seq<byte>, refBlockNum: seq<byte>, refBlockPrefix: seq<byte>, expiration: seq<byte>,
    operations: seq<HostOperation>, extension: Option<seq<byte>>)

  function OperationValues(ops: seq<HostOperation>): seq<seq<byte>> {
    if ops == [] then [] else [[ops[0].id], ops[0].payload] + OperationValues(ops[1..])
  }

  /** Without an entry for the extensions, their list is the single byte zero. */
  function ExtensionValue(tx: Transaction): seq<byte> {
    match tx.extension
    case Some(e) => e
    case None => [0]
  }

  /** The values that are written, in order. */
  function TransactionValues(tx: Transaction): seq<seq<byte>> {
    [tx.chainId, tx.refBlockNum, tx.refBlockPrefix, tx.expiration, Varint.Pack(|tx.operations|)]
    + OperationValues(tx.operations) + [ExtensionValue(tx)]
  }

  function EncodeField(v: seq<byte>): Field
    requires |v| < SIZE_LIMIT
  {
    Field(EncodeHeader(|v|), v)
  }

  function EncodeFields(vs: seq<seq<byte>>): seq<Field>
    requires forall v <- vs :: |v| < SIZE_LIMIT
  {
    seq(|vs|, k requires 0 <= k < |vs| => EncodeField(vs[k]))
  }

  /** The payload bytes the device has room for. */
  function SupportedBytes(ops: seq<HostOperation>): nat {
    if ops == [] then 0 else
      SupportedBytes(ops[..|ops| - 1]) + if ops[|ops| - 1].id in {0, 1, 2, 6, 8} then |ops[|ops| - 1].payload| else 0
  }

  /** The transactions the device accepts. */
  predicate Acceptable(tx: Transaction) {
    && 1 <= |tx.operations| <= 4
    && (forall o <- tx.operations :: o.id < 128 && |o.payload| < 0x100_0000)
    && |tx.chainId| < 0x100_0000 && |tx.refBlockNum| < 0x100_0000
    && |tx.refBlockPrefix| < 0x100_0000 && |tx.expiration| < 0x100_0000
    && SupportedBytes(tx.operations) <= 768
    && NoExtensions(tx)
  }

  /** The entry for the extensions, if there is one, takes at most twelve bytes and says that there are none. */
  predicate NoExtensions(tx: Transaction) {
    ExtensionValue(tx) != [] && Readable(ExtensionValue(tx)) && Count(ExtensionValue(tx)) == 0
  }

  /** The transactions the host can hold in memory. */
  ghost predicate Writable(tx: Transaction) {
    && |tx.operations| < 0x1_0000_0000_0000_0000
    && forall v <- TransactionValues(tx) :: |v| < 0x1_0000_0000_0000_0000
  }

  /** The first k fields have been written. */
  ghost predicate Written(vs: seq<seq<byte>>, k: nat, output: seq<byte>) {
    k <= |vs| && (forall v <- vs :: |v| < SIZE_LIMIT) && output == FlatFields(EncodeFields(vs[..k]))
  }

  /** `encoder.write` of an octet string. */
  method Write(output: seq<byte>, v: seq<byte>, ghost vs: seq<seq<byte>>, ghost k: nat) returns (output': seq<byte>)
    requires Written(vs, k, output) && k < |vs| && v == vs[k]
    ensures Written(vs, k + 1, output')
  {
    WriteStep(vs, k);
    output' := output + Bytes(EncodeField(v));
  }

  /** The loop over the operations: an id and a payload each. */
  method WriteOperations(output: seq<byte>, tx: Transaction) returns (output': seq<byte>)
    requires Written(TransactionValues(tx), 5, output)
    ensures Written(TransactionValues(tx), 5 + 2 * |tx.operations|, output')
  {
    hide TransactionValues, Written;
    output' := output;
    ghost var vs := TransactionValues(tx);
    for opIdx := 0 to |tx.operations|
      invariant Written(vs, 5 + 2 * opIdx, output')
    {
      ValuesAt(tx, opIdx);
      output' := Write(output', [tx.operations[opIdx].id], vs, 5 + 2 * opIdx);
      output' := Write(output', tx.operations[opIdx].payload, vs, 6 + 2 * opIdx);
    }
  }

  /** The fields before the operations. */
  method WriteHead(tx: Transaction) returns (output: seq<byte>)
    requires Writable(tx)
    ensures Written(TransactionValues(tx), 5, output)
  {
    hide Written, Writable, TransactionValues;
    ghost var vs := TransactionValues(tx);
    ValuesLength(tx);
    output := [];
    NothingWritten(tx);
    output := Write(output, tx.chainId, vs, 0);
    output := Write(output, tx.refBlockNum, vs, 1);
    output := Write(output, tx.refBlockPrefix, vs, 2);
    output := Write(output, tx.expiration, vs, 3);
    output := Write(output, Varint.Pack(|tx.operations|), vs, 4);
  }

  lemma NothingWritten(tx: Transaction)
    requires Writable(tx)
    ensures Written(TransactionValues(tx), 0, [])
  {
    hide TransactionValues;
  }

  /** `encodeTlvTx` */
  method EncodeTlvTx(tx: Transaction) returns (output: seq<byte>)
    requires Writable(tx)
    ensures output == FlatFields(EncodeFields(TransactionValues(tx)))
  {
    hide TransactionValues, Written, FlatFields, EncodeFields;
    ValuesLength(tx);
    ghost var vs := TransactionValues(tx);
    output := WriteHead(tx);
    output := WriteOperations(output, tx);
    if tx.extension.Some? {
      output := Write(output, tx.extension.value, vs, 5 + 2 * |tx.operations|);
    } else {
      output := Write(output, [0], vs, 5 + 2 * |tx.operations|);
    }
    AllWritten(vs, output);
  }

  lemma AllWritten(vs: seq<seq<byte>>, output: seq<byte>)
    requires Written(vs, |vs|, output)
    ensures (forall v <- vs :: |v| < SIZE_LIMIT) && output == FlatFields(EncodeFields(vs))
  {
    assert vs[..|vs|] == vs;
  }

  lemma {:induction false} OperationValuesLength(ops: seq<HostOperation>)
    ensures |OperationValues(ops)| == 2 * |ops|
  {
    if ops != [] {
      OperationValuesLength(ops[1..]);
    }
  }

  lemma {:induction false} OperationValuesAt(ops: seq<HostOperation>, i: nat)
    requires i < |ops|
    ensures |OperationValues(ops)| == 2 * |ops|
    ensures OperationValues(ops)[2 * i] == [ops[i].id] && OperationValues(ops)[2 * i + 1] == ops[i].payload
  {
    OperationValuesLength(ops);
    if i > 0 {
      OperationValuesAt(ops[1..], i - 1);
    }
  }

  lemma ValuesLength(tx: Transaction)
    ensures |TransactionValues(tx)| == 6 + 2 * |tx.operations|
    ensures TransactionValues(tx)[5 + 2 * |tx.operations|] == ExtensionValue(tx)
    ensures TransactionValues(tx)[0] == tx.chainId && TransactionValues(tx)[1] == tx.refBlockNum
    ensures TransactionValues(tx)[2] == tx.refBlockPrefix && TransactionValues(tx)[3] == tx.expiration
    ensures TransactionValues(tx)[4] == Varint.Pack(|tx.operations|)
  {
    OperationValuesLength(tx.operations);
  }

  lemma ValuesAt(tx: Transaction, i: nat)
    requires i < |tx.operations|
    ensures |TransactionValues(tx)| == 6 + 2 * |tx.operations|
    ensures TransactionValues(tx)[5 + 2 * i] == [tx.operations[i].id]
    ensures TransactionValues(tx)[6 + 2 * i] == tx.operations[i].payload
  {
    OperationValuesAt(tx.operations, i);
    ValuesLength(tx);
  }

  lemma {:induction false} FlatFieldsAppend(fs: seq<Field>, f: Field)
    ensures FlatFields(fs + [f]) == FlatFields(fs) + Bytes(f)
  {
    if fs == [] {
      assert fs + [f] == [f] && [f][1..] == [];
    } else {
      assert (fs + [f])[1..] == fs[1..] + [f];
      FlatFieldsAppend(fs[1..], f);
    }
  }

  lemma WriteStep(vs: seq<seq<byte>>, k: nat)
    requires k < |vs| && forall v <- vs :: |v| < SIZE_LIMIT
    ensures FlatFields(EncodeFields(vs[..k + 1])) == FlatFields(EncodeFields(vs[..k])) + Bytes(EncodeField(vs[k]))
  {
    hide EncodeField, Bytes;
    assert EncodeFields(vs[..k + 1]) == EncodeFields(vs[..k]) + [EncodeField(vs[k])];
    FlatFieldsAppend(EncodeFields(vs[..k]), EncodeField(vs[k]));
  }
}
