/** What a run has read, hashed and kept, in terms of the values of the fields it was fed. */
module StreamMeaning {
  import opened Numerals
  import opened StreamSpec
  import opened StreamChunks
  import opened StreamFields
  import Varint

  /** A size field as it stands in sizeBuffer, and the number it holds. */
  function Padded(v: seq<byte>): seq<byte> {
    if |v| <= 12 then v + Zeros(12 - |v|) else v
  }

  function Count(v: seq<byte>): nat {
    match Varint.Unpacked32(Padded(v))
    case Ok((n, _)) => n
    case Throw(_) => 0
  }

  /** A size field fits sizeBuffer and holds a number of 32 bits. */
  predicate Readable(v: seq<byte>) {
    |v| <= 12 && Varint.Unpacked32(Padded(v)).Ok?
  }

  // ---- agreement of a snapshot with the values read so far ----

  /** The hashes: all values, and all but the chain id. */
  ghost predicate HashesAgree(s: Snapshot, vs: seq<seq<byte>>) {
    && s.msgHash == Flat(vs)
    && s.txIdHash == if vs == [] then [] else Flat(vs[1..])
  }

  /**
   * The phase: five fixed fields, then an id and a payload for each declared operation, then that there are no
   * extensions.
   */
  ghost predicate PhaseAgrees(s: Snapshot, vs: seq<seq<byte>>) {
    match |vs|
    case 0 => s.state == ChainId
    case 1 => s.state == RefBlockNum
    case 2 => s.state == RefBlockPrefix
    case 3 => s.state == Expiration
    case 4 => s.state == OperationListSize
    case n =>
      var declared, k := Count(vs[4]), n - 5;
      && Readable(vs[4]) && TX_MIN_OPERATIONS <= declared <= TX_MAX_OPERATIONS
      && if s.state == Done
         then k == 2 * declared + 1 && s.opCount == declared && Readable(vs[n - 1]) && Count(vs[n - 1]) == 0
         else
           && k <= 2 * declared && s.opCount == (k + 1) / 2 && s.remaining == declared - s.opCount
           && if k % 2 == 1 then Payload(s.state) else ByteFree(s.state)
  }

  /** Operation i's slice of the cache. */
  function Slice(s: Snapshot, i: nat): seq<byte> {
    if i < |s.offsets| && Start(s.offsets, i) <= s.offsets[i] <= |s.cache|
    then s.cache[Start(s.offsets, i)..s.offsets[i]] else []
  }

  /** Ids are the ones read; a supported operation's slice is its payload field, any other's is empty. */
  ghost predicate OperationsAgree(s: Snapshot, vs: seq<seq<byte>>) {
    && (forall i :: 0 <= i < s.opCount ==> IdAgrees(s, vs, i))
    && (forall i :: 0 <= i < Completed(s) ==> PayloadAgrees(s, vs, i))
  }

  ghost predicate IdAgrees(s: Snapshot, vs: seq<seq<byte>>, i: nat) {
    i < |s.opIds| && 5 + 2 * i < |vs| && Readable(vs[5 + 2 * i]) && s.opIds[i] == Count(vs[5 + 2 * i])
  }

  ghost predicate PayloadAgrees(s: Snapshot, vs: seq<seq<byte>>, i: nat) {
    i < |s.opIds| && 6 + 2 * i < |vs| && Slice(s, i) == if Supported(s.opIds[i]) then vs[6 + 2 * i] else []
  }

  ghost predicate Agrees(s: Snapshot, vs: seq<seq<byte>>) {
    Boundary(s) && HashesAgree(s, vs) && PhaseAgrees(s, vs) && OperationsAgree(s, vs)
  }

  lemma InitAgrees()
    ensures Agrees(Init(), [])
  {
    InitValid();
  }

  // ---- one field ----

  lemma {:induction false} FlatAppend(vs: seq<seq<byte>>, v: seq<byte>)
    ensures Flat(vs + [v]) == Flat(vs) + v
  {
    if vs == [] {
      assert vs + [v] == [v];
      assert Flat([v]) == v + Flat([v][1..]);
    } else {
      assert (vs + [v])[1..] == vs[1..] + [v];
      FlatAppend(vs[1..], v);
    }
  }

  /** The settled snapshot a field is absorbed into. */
  function Entered(s: Snapshot, f: Field): Snapshot {
    Settle(OpenedBy(s, f.header, |f.value|))
  }

  lemma EnteredValid(s: Snapshot, f: Field)
    requires Boundary(s) && s.state != Done && WellFormed(f)
    ensures var m := Entered(s, f);
      Valid(m) && m.processing && m.fieldPos == 0 && m.fieldLength == |f.value| && !ByteFree(m.state)
  {
    hide Settle;
    DecodedLength(f.header);
    RunHeader(s, f.header, |f.value|, 0, []);
    OpenedFacts(s, f.header, |f.value|);
    var u := OpenedBy(s, f.header, |f.value|);
    hide Valid, Run, Turn, WellFormed, OpenedBy;
    SettleValid(u);
  }

  /** Dispatching a whole value is absorbing and completing it, unless there is no room for it. */
  lemma DispatchWhole(m: Snapshot, v: seq<byte>)
    requires m.fieldPos == 0 && m.fieldLength == |v| && !ByteFree(m.state)
    ensures PayloadFits(m) && (SizeField(m.state) ==> |v| <= SIZE_BUFFER) ==>
      Dispatch(m, v) == Complete(Absorb(m, v), [])
    ensures Dispatch(m, v).status == Processing ==> PayloadFits(m) && (SizeField(m.state) ==> |v| <= SIZE_BUFFER)
  {
    hide Complete;
    assert v[..|v|] == v && v[|v|..] == [];
  }

  lemma EnteredFacts(s: Snapshot, f: Field)
    ensures var m := Entered(s, f);
      && m.msgHash == s.msgHash && m.txIdHash == s.txIdHash
      && m.opCount == s.opCount && m.opIds == s.opIds && m.offsets == s.offsets && m.cache == s.cache
      && m.size == s.size
      && m.state == (if !ByteFree(s.state) then s.state
                     else if s.remaining > 0 then OperationId else TxExtensionListSize)
      && m.remaining == (if ByteFree(s.state) && s.remaining > 0 then s.remaining - 1 else s.remaining)
  {
  }

  lemma HashesStep(s: Snapshot, vs: seq<seq<byte>>, f: Field)
    requires HashesAgree(s, vs) && (vs == [] <==> s.state == ChainId)
    requires Complete(Absorb(Entered(s, f), f.value), []).status == Processing
    ensures HashesAgree(Complete(Absorb(Entered(s, f), f.value), []).snap, vs + [f.value])
  {
    hide Entered, Varint.Unpacked32;
    EnteredFacts(s, f);
    FlatAppend(vs, f.value);
    if vs == [] {
      assert ([] + [f.value])[1..] == [];
    } else {
      assert (vs + [f.value])[1..] == vs[1..] + [f.value];
      FlatAppend(vs[1..], f.value);
    }
  }

  lemma PaddedSize(s: Snapshot, v: seq<byte>)
    requires Valid(s) && s.processing && s.fieldPos == 0 && SizeField(s.state) && |v| <= SIZE_BUFFER
    ensures Absorb(s, v).size == Padded(v)
  {
    assert s.size[0..] == s.size;
    assert s.size[|v|..] == Zeros(SIZE_BUFFER)[|v|..];
  }

  // What completing each kind of field does to the phase and to the operations.

  lemma HeaderFieldStep(s: Snapshot, vs: seq<seq<byte>>, v: seq<byte>, t: Snapshot)
    requires Agrees(s, vs) && |vs| < 4
    requires t.state == Succ(s.state) && t.opCount == s.opCount
    requires Boundary(t)
    ensures PhaseAgrees(t, vs + [v]) && OperationsAgree(t, vs + [v])
  {
  }

  lemma ListSizeStep(s: Snapshot, vs: seq<seq<byte>>, v: seq<byte>, t: Snapshot)
    requires Agrees(s, vs) && |vs| == 4 && Boundary(t)
    requires t.state == OperationCheckRemain && t.opCount == 0 && t.remaining == Count(v)
    requires Readable(v) && TX_MIN_OPERATIONS <= Count(v) <= TX_MAX_OPERATIONS
    ensures PhaseAgrees(t, vs + [v]) && OperationsAgree(t, vs + [v])
  {
  }

  lemma OperationIdPhase(s: Snapshot, vs: seq<seq<byte>>, v: seq<byte>, t: Snapshot)
    requires Agrees(s, vs) && ByteFree(s.state) && s.remaining > 0
    requires t.opCount == s.opCount + 1 && t.remaining == s.remaining - 1 && Payload(t.state)
    ensures |vs| == 5 + 2 * s.opCount && s.opCount < |s.opIds| && Completed(t) == Completed(s) == s.opCount
    ensures PhaseAgrees(t, vs + [v])
  {
    hide OperationsAgree, HashesAgree, Count, Readable, Valid;
    RoomForOne(s, vs);
    assert |vs| > 4 ==> (vs + [v])[4] == vs[4];
  }

  lemma RoomForOne(s: Snapshot, vs: seq<seq<byte>>)
    requires Agrees(s, vs) && ByteFree(s.state)
    ensures s.opCount + s.remaining <= |s.opIds|
  {
    hide OperationsAgree, HashesAgree, Count, Readable;
  }

  lemma OperationIdStep(s: Snapshot, vs: seq<seq<byte>>, v: seq<byte>, t: Snapshot)
    requires Agrees(s, vs) && ByteFree(s.state) && s.remaining > 0 && Boundary(t)
    requires t.opCount == s.opCount + 1 && t.remaining == s.remaining - 1 && Payload(t.state)
    requires t.opIds == Put(s.opIds, s.opCount, Count(v)) && t.offsets == s.offsets && t.cache == s.cache && Readable(v)
    ensures PhaseAgrees(t, vs + [v]) && OperationsAgree(t, vs + [v])
  {
    OperationIdPhase(s, vs, v, t);
    hide Valid, HashesAgree, PhaseAgrees, Slice;
    forall i | 0 <= i < t.opCount ensures IdAgrees(t, vs + [v], i) {
      assert i < s.opCount ==> IdAgrees(s, vs, i);
    }
    forall i | 0 <= i < Completed(t) ensures PayloadAgrees(t, vs + [v], i) {
      assert PayloadAgrees(s, vs, i);
    }
  }

  lemma {:induction false} OffsetsOrdered(s: Snapshot, i: nat, j: nat)
    requires Valid(s) && i <= j < Completed(s)
    ensures s.offsets[i] <= s.offsets[j]
    decreases j
  {
    if i < j {
      assert Start(s.offsets, j) <= s.offsets[j];
      OffsetsOrdered(s, i, j - 1);
    }
  }

  /** The current payload has gone behind the earlier ones. */
  ghost predicate PayloadKept(s: Snapshot, v: seq<byte>, t: Snapshot) {
    var at := Start(s.offsets, s.opCount - 1);
    && ByteFree(t.state) && t.state != OperationCheckRemain
    && t.opCount == s.opCount && t.remaining == s.remaining && t.opIds == s.opIds
    && if s.state == OpSimplePayload
       then
         at + |v| <= CACHE_SIZE && t.cache == Splice(s.cache, at, v)
         && t.offsets == Put(s.offsets, s.opCount - 1, at + |v|)
       else t.offsets == Put(s.offsets, s.opCount - 1, at) && t.cache == s.cache
  }

  lemma SpliceAfter(buf: seq<byte>, at: nat, v: seq<byte>, lo: nat, hi: nat)
    requires at + |v| <= |buf| && lo <= hi <= at
    ensures Splice(buf, at, v)[lo..hi] == buf[lo..hi] && Splice(buf, at, v)[at..at + |v|] == v
  {
  }

  lemma PayloadSlice(s: Snapshot, v: seq<byte>, t: Snapshot, i: nat)
    requires Valid(s) && Payload(s.state) && PayloadKept(s, v, t) && i < s.opCount
    ensures Slice(t, i) == if i == s.opCount - 1 then (if Supported(s.opIds[i]) then v else []) else Slice(s, i)
  {
    var last := s.opCount - 1;
    var at := Start(s.offsets, last);
    if i < last {
      OffsetsOrdered(s, i, last - 1);
      assert Start(s.offsets, i) <= s.offsets[i] <= at <= CACHE_SIZE;
    }
    assert at <= CACHE_SIZE by { assert last > 0 ==> Start(s.offsets, last - 1) <= s.offsets[last - 1] <= CACHE_SIZE; }
    assert s.state == OpSimplePayload <==> Supported(s.opIds[last]);
    assert |s.offsets| == TX_MAX_OPERATIONS && |s.cache| == CACHE_SIZE && last < TX_MAX_OPERATIONS;
    hide Valid, Supported;
    if s.state == OpSimplePayload {
      var lo, hi := Start(s.offsets, i), if i < last then s.offsets[i] else at;
      SpliceAfter(s.cache, at, v, if i < last then lo else at, hi);
    }
    hide Splice;
  }

  lemma PayloadPhase(s: Snapshot, vs: seq<seq<byte>>, v: seq<byte>, t: Snapshot)
    requires Valid(s) && PhaseAgrees(s, vs) && Payload(s.state) && PayloadKept(s, v, t)
    ensures PhaseAgrees(t, vs + [v])
    ensures |vs| == 6 + 2 * (s.opCount - 1) && 1 <= s.opCount <= |s.opIds|
    ensures Completed(t) == s.opCount == Completed(s) + 1
  {
    hide Splice, Readable, Count, Valid;
    PayloadCounts(s);
    assert |vs| > 4 ==> (vs + [v])[4] == vs[4];
  }

  lemma PayloadCounts(s: Snapshot)
    requires Valid(s) && Payload(s.state)
    ensures 1 <= s.opCount <= |s.opIds|
  {
  }

  lemma PayloadStep(s: Snapshot, vs: seq<seq<byte>>, v: seq<byte>, t: Snapshot)
    requires Agrees(s, vs) && Payload(s.state) && Boundary(t) && PayloadKept(s, v, t)
    ensures PhaseAgrees(t, vs + [v]) && OperationsAgree(t, vs + [v])
  {
    hide Valid, HashesAgree, PhaseAgrees, Slice, Splice;
    var last := s.opCount - 1;
    PayloadPhase(s, vs, v, t);
    forall i | 0 <= i < t.opCount ensures IdAgrees(t, vs + [v], i) {
      assert IdAgrees(s, vs, i);
    }
    forall i | 0 <= i < Completed(t) ensures PayloadAgrees(t, vs + [v], i) {
      PayloadSlice(s, v, t, i);
      assert i < last ==> PayloadAgrees(s, vs, i);
    }
  }

  lemma ExtensionStep(s: Snapshot, vs: seq<seq<byte>>, v: seq<byte>, t: Snapshot)
    requires Agrees(s, vs) && ByteFree(s.state) && s.remaining == 0 && Boundary(t)
    requires t.state == Done && t.opCount == s.opCount && t.opIds == s.opIds && t.offsets == s.offsets
    requires t.cache == s.cache
    requires Readable(v) && Count(v) == 0
    ensures PhaseAgrees(t, vs + [v]) && OperationsAgree(t, vs + [v])
  {
    hide Valid, HashesAgree, PhaseAgrees, Slice, Readable, Count;
    ExtensionPhase(s, vs, v, t);
    forall i | 0 <= i < t.opCount ensures IdAgrees(t, vs + [v], i) {
      assert IdAgrees(s, vs, i);
    }
    forall i | 0 <= i < Completed(t) ensures PayloadAgrees(t, vs + [v], i) {
      assert PayloadAgrees(s, vs, i);
      SameSlice(s, t, i);
    }
  }

  lemma ExtensionPhase(s: Snapshot, vs: seq<seq<byte>>, v: seq<byte>, t: Snapshot)
    requires PhaseAgrees(s, vs) && ByteFree(s.state) && s.remaining == 0
    requires t.state == Done && t.opCount == s.opCount && Readable(v) && Count(v) == 0
    ensures PhaseAgrees(t, vs + [v]) && |vs| == 5 + 2 * s.opCount && Completed(t) == Completed(s)
  {
    hide Readable, Count;
    assert |vs| > 4 ==> (vs + [v])[4] == vs[4];
  }

  lemma SameSlice(s: Snapshot, t: Snapshot, i: nat)
    requires t.offsets == s.offsets && t.cache == s.cache
    ensures Slice(t, i) == Slice(s, i)
  {
  }

  /** What completing a field leaves, by the state the field was entered in. */
  ghost predicate Completes(m: Snapshot, v: seq<byte>, t: Snapshot) {
    match m.state
    case OperationListSize =>
      && t.state == OperationCheckRemain && t.opCount == 0 && t.remaining == Count(v)
      && Readable(v) && TX_MIN_OPERATIONS <= Count(v) <= TX_MAX_OPERATIONS
    case OperationId =>
      && t.opCount == m.opCount + 1 && t.remaining == m.remaining && Payload(t.state) && t.opId == Count(v)
      && t.opIds == Put(m.opIds, m.opCount, Count(v)) && t.offsets == m.offsets && t.cache == m.cache && Readable(v)
    case OpSimplePayload => PayloadKept(m, v, t)
    case OpUnsupportedPayload => PayloadKept(m, v, t)
    case TxExtensionListSize =>
      && t.state == Done && t.opCount == m.opCount && t.opIds == m.opIds && t.offsets == m.offsets && t.cache == m.cache
      && Readable(v) && Count(v) == 0
    case _ => t.state == Succ(m.state) && t.opCount == m.opCount
  }

  lemma CompletesSize(m: Snapshot, v: seq<byte>)
    requires SizeField(m.state) && |v| <= SIZE_BUFFER && Absorb(m, v).size == Padded(v)
    requires Complete(Absorb(m, v), []).status == Processing
    ensures Completes(m, v, Complete(Absorb(m, v), []).snap)
  {
    hide Padded, Varint.Unpacked32, Splice;
  }

  lemma CompletesOther(m: Snapshot, v: seq<byte>)
    requires m.fieldPos == 0 && m.fieldLength == |v| && !SizeField(m.state) && !ByteFree(m.state) && PayloadFits(m)
    requires Complete(Absorb(m, v), []).status == Processing
    ensures Completes(m, v, Complete(Absorb(m, v), []).snap)
  {
    if Payload(m.state) {
      CompletesPayload(m, v);
    }
    hide Splice, Put, Start, Completed;
  }

  lemma CompletesPayload(m: Snapshot, v: seq<byte>)
    requires m.fieldPos == 0 && m.fieldLength == |v| && Payload(m.state) && PayloadFits(m)
    ensures PayloadKept(m, v, Complete(Absorb(m, v), []).snap)
  {
    hide Splice, Put, Start, StreamSpec.Complete;
    PayloadCompletes(Absorb(m, v), [],
                     Start(m.offsets, m.opCount - 1) + if m.state == OpSimplePayload then m.fieldLength else 0);
  }

  lemma TakeIsDispatch(s: Snapshot, f: Field)
    ensures TakeField(s, f) == Dispatch(Entered(s, f), f.value)
  {
    hide Dispatch;
  }

  /** A snapshot that agrees with what was read agrees still after one more field. */
  lemma TakeFieldAgrees(s: Snapshot, vs: seq<seq<byte>>, f: Field)
    requires Agrees(s, vs) && s.state != Done && WellFormed(f)
    requires TakeField(s, f).status == Processing && Boundary(TakeField(s, f).snap)
    ensures Agrees(TakeField(s, f).snap, vs + [f.value])
  {
    hide TakeField, Entered, Complete, Absorb, Dispatch, WellFormed, Valid, Padded, Completes, HashesAgree,
         OperationsAgree;
    EnteredValid(s, f);
    TakeIsDispatch(s, f);
    DispatchWhole(Entered(s, f), f.value);
    EnteredFacts(s, f);
    HashesStep(s, vs, f);
    var m, v, t := Entered(s, f), f.value, TakeField(s, f).snap;
    if SizeField(m.state) {
      PaddedSize(m, v);
      CompletesSize(m, v);
    } else {
      CompletesOther(m, v);
    }
    FieldStep(s, vs, m, v, t);
  }

  /** m is s on entering the next field. */
  ghost predicate Enters(s: Snapshot, m: Snapshot) {
    && m.opCount == s.opCount && m.opIds == s.opIds && m.offsets == s.offsets && m.cache == s.cache
    && m.state == (if !ByteFree(s.state) then s.state else if s.remaining > 0 then OperationId else TxExtensionListSize)
    && m.remaining == (if ByteFree(s.state) && s.remaining > 0 then s.remaining - 1 else s.remaining)
  }

  lemma FieldStep(s: Snapshot, vs: seq<seq<byte>>, m: Snapshot, v: seq<byte>, t: Snapshot)
    requires Agrees(s, vs) && s.state != Done && Boundary(t) && Completes(m, v, t) && Enters(s, m)
    ensures PhaseAgrees(t, vs + [v]) && OperationsAgree(t, vs + [v])
  {
    hide OperationsAgree, PhaseAgrees, Agrees, Boundary, Completes, Enters;
    KindOf(s, vs);
    if ByteFree(s.state) {
      FreeFieldStep(s, vs, m, v, t);
    } else if Payload(s.state) {
      PayloadFieldStep(s, vs, m, v, t);
    } else {
      FixedFieldStep(s, vs, m, v, t);
    }
  }

  lemma PayloadFieldStep(s: Snapshot, vs: seq<seq<byte>>, m: Snapshot, v: seq<byte>, t: Snapshot)
    requires Agrees(s, vs) && Payload(s.state) && Boundary(t) && Completes(m, v, t) && Enters(s, m)
    ensures PhaseAgrees(t, vs + [v]) && OperationsAgree(t, vs + [v])
  {
    hide OperationsAgree, PhaseAgrees, Agrees, Boundary;
    assert PayloadKept(m, v, t);
    hide Completes;
    PayloadStep(s, vs, v, t);
  }

  lemma FixedFieldStep(s: Snapshot, vs: seq<seq<byte>>, m: Snapshot, v: seq<byte>, t: Snapshot)
    requires Agrees(s, vs) && Boundary(t) && Completes(m, v, t) && Enters(s, m)
    requires s.state in {ChainId, RefBlockNum, RefBlockPrefix, Expiration, OperationListSize}
    ensures PhaseAgrees(t, vs + [v]) && OperationsAgree(t, vs + [v])
  {
    hide OperationsAgree, PhaseAgrees, Agrees, Boundary;
    KindOf(s, vs);
    if s.state == OperationListSize {
      ListSizeStep(s, vs, v, t);
    } else {
      HeaderFieldStep(s, vs, v, t);
    }
  }

  lemma FreeFieldStep(s: Snapshot, vs: seq<seq<byte>>, m: Snapshot, v: seq<byte>, t: Snapshot)
    requires Agrees(s, vs) && ByteFree(s.state) && Boundary(t) && Completes(m, v, t) && Enters(s, m)
    ensures PhaseAgrees(t, vs + [v]) && OperationsAgree(t, vs + [v])
  {
    hide OperationsAgree, PhaseAgrees, Agrees, Boundary;
    if s.remaining > 0 {
      OperationIdStep(s, vs, v, t);
    } else {
      ExtensionStep(s, vs, v, t);
    }
  }

  lemma KindOf(s: Snapshot, vs: seq<seq<byte>>)
    requires Agrees(s, vs) && s.state != Done
    ensures s.state == OperationListSize <==> |vs| == 4
    ensures ByteFree(s.state) || Payload(s.state) <==> |vs| > 4
    ensures s.state in {ChainId, RefBlockNum, RefBlockPrefix, Expiration} <==> |vs| < 4
  {
    hide HashesAgree, OperationsAgree;
  }

  // ---- whole runs ----

  /**
   * Every call that finishes from the start has read a sequence of whole fields, and the final snapshot agrees
   * with their values: what was hashed, and what is kept for display, is what was sent, and no extension was announced.
   */
  lemma {:induction false} FinishedRunAgrees(s: Snapshot, vs: seq<seq<byte>>, input: seq<byte>) returns (fs: seq<Field>)
    requires Agrees(s, vs) && Run(s, input).status == Finished
    ensures AllWellFormed(fs) && input == FlatFields(fs) + Run(s, input).rest
    ensures Agrees(Run(s, input).snap, vs + Values(fs)) && Run(s, input).snap.state == Done
    ensures if s.state == Done then fs == [] else fs != [] && (fs[|fs| - 1].value != [] || Run(s, input).rest != [])
    decreases |input|
  {
    if s.state == Done {
      fs := [];
      assert vs + Values([]) == vs;
      NothingMore(s, input);
    } else {
      assert Boundary(s);
      hide Valid, Run, TakeField, Agrees, Boundary, WellFormed;
      var f, rest := PassedField(s, input);
      TakeFieldAgrees(s, vs, f);
      LastNeedsByte(s, vs, f, rest);
      var tail := FinishedRunAgrees(TakeField(s, f).snap, vs + [f.value], rest);
      fs := [f] + tail;
      PrependField(vs, f, tail, Run(s, input).rest);
      hide AllWellFormed, FlatFields, Values, Bytes;
    }
  }

  /** The last field of a transaction is reached by a move that waits for a byte behind its header. */
  lemma LastNeedsByte(s: Snapshot, vs: seq<seq<byte>>, f: Field, rest: seq<byte>)
    requires Agrees(s, vs) && s.state != Done && Closes(s, f, rest)
    requires Agrees(TakeField(s, f).snap, vs + [f.value])
    ensures TakeField(s, f).snap.state == Done ==>
      (f.value != [] || rest != []) && Run(TakeField(s, f).snap, rest) == Step(Finished, TakeField(s, f).snap, rest)
  {
    hide TakeField, HashesAgree, OperationsAgree, Readable, Count;
    assert |vs| > 4 ==> (vs + [f.value])[4] == vs[4];
  }

  lemma NothingMore(s: Snapshot, input: seq<byte>)
    requires Valid(s) && s.state == Done
    ensures Run(s, input) == Step(Finished, s, input) && FlatFields([]) + input == input
  {
  }

  lemma PrependField(vs: seq<seq<byte>>, f: Field, tail: seq<Field>, rest: seq<byte>)
    ensures vs + [f.value] + Values(tail) == vs + Values([f] + tail)
    ensures FlatFields([f] + tail) + rest == Bytes(f) + (FlatFields(tail) + rest)
    ensures AllWellFormed(tail) && WellFormed(f) ==> AllWellFormed([f] + tail)
  {
    hide WellFormed;
    assert ([f] + tail)[1..] == tail;
  }
}
