/**
 * The transaction machine as a function: one snapshot of its context and content, and what a call of
 * `processTxStream` makes of it. A hash context is the sequence of bytes it has absorbed since it was initialised.
 */
module StreamSpec {
  import opened Numerals
  import opened Tlv
  import Varint

  datatype State =
    | NoState | ChainId | RefBlockNum | RefBlockPrefix | Expiration
    | OperationListSize | OperationCheckRemain | OperationId | TxExtensionListSize | Done
    | OpSimplePayload | OpSimpleDone | OpComplexPayload | OpComplexDone | OpUnsupportedPayload | OpUnsupportedDone

  /** `state++`: the next one in the order of the declaration. */
  function Succ(s: State): State {
    match s
    case NoState => ChainId
    case ChainId => RefBlockNum
    case RefBlockNum => RefBlockPrefix
    case RefBlockPrefix => Expiration
    case Expiration => OperationListSize
    case OperationListSize => OperationCheckRemain
    case OperationCheckRemain => OperationId
    case OperationId => TxExtensionListSize
    case TxExtensionListSize => Done
    case Done => OpSimplePayload
    case OpSimplePayload => OpSimpleDone
    case OpSimpleDone => OpComplexPayload
    case OpComplexPayload => OpComplexDone
    case OpComplexDone => OpUnsupportedPayload
    case OpUnsupportedPayload => OpUnsupportedDone
    case OpUnsupportedDone => OpUnsupportedDone
  }

  /**
   * Overrun is no status of the program: it marks the point where a list size, operation id or extension field
   * longer than twelve bytes would be copied past the end of `sizeBuffer`, which C leaves undefined.
   */
  datatype Status = Processing | Finished | Fault | Overrun

  const TX_MIN_OPERATIONS: nat := 1
  const TX_MAX_OPERATIONS: nat := 4
  const CACHE_SIZE: nat := 768
  const SIZE_BUFFER: nat := 12
  const TLV_BUFFER: nat := 5

  const OP_TRANSFER: nat := 0
  const OP_LIMIT_ORDER_CREATE: nat := 1
  const OP_LIMIT_ORDER_CANCEL: nat := 2
  const OP_ACCOUNT_UPDATE: nat := 6
  const OP_ACCOUNT_UPGRADE: nat := 8

  /** The operations whose payload is kept. */
  predicate Supported(opId: nat) {
    opId == OP_TRANSFER || opId == OP_LIMIT_ORDER_CREATE || opId == OP_LIMIT_ORDER_CANCEL
    || opId == OP_ACCOUNT_UPDATE || opId == OP_ACCOUNT_UPGRADE
  }

  datatype Snapshot = Snapshot(
    state: State,
    fieldLength: nat, fieldPos: nat,
    remaining: nat,
    opId: nat,
    processing: bool,
    tlv: seq<byte>, tlvPos: nat,
    size: seq<byte>,
    msgHash: seq<byte>, txIdHash: seq<byte>,
    opCount: nat, opIds: seq<nat>, offsets: seq<nat>,
    cache: seq<byte>)

  function Init(): Snapshot {
    Snapshot(ChainId, 0, 0, 0, 0, false, Zeros(TLV_BUFFER), 0, Zeros(SIZE_BUFFER), [], [],
             0, [0, 0, 0, 0], [0, 0, 0, 0], Zeros(CACHE_SIZE))
  }

  // ---- the invariant ----

  predicate ByteFree(state: State) {
    state == OperationCheckRemain || state == OpSimpleDone || state == OpUnsupportedDone
  }

  predicate SizeField(state: State) {
    state == OperationListSize || state == OperationId || state == TxExtensionListSize
  }

  predicate Payload(state: State) {
    state == OpSimplePayload || state == OpUnsupportedPayload
  }

  // The functions below are total; outside the ranges the invariant guarantees they leave things as they are.

  /** Where operation i's payload starts in the cache. */
  function Start(offsets: seq<nat>, i: int): nat {
    if 1 <= i <= |offsets| then offsets[i - 1] else 0
  }

  function Put(xs: seq<nat>, i: int, x: nat): seq<nat> {
    if 0 <= i < |xs| then xs[i := x] else xs
  }

  /** Operations whose payload field is complete. */
  function Completed(s: Snapshot): int {
    if Payload(s.state) then s.opCount - 1 else s.opCount
  }

  /** The operation count has been read. */
  predicate Past(state: State) {
    state !in {NoState, ChainId, RefBlockNum, RefBlockPrefix, Expiration, OperationListSize}
  }

  /** Operations seen, the one whose id is due, and those still to come. */
  function Budget(s: Snapshot): nat {
    s.opCount + s.remaining + if s.state == OperationId then 1 else 0
  }

  ghost predicate Sized(s: Snapshot) {
    && |s.tlv| == TLV_BUFFER && |s.size| == SIZE_BUFFER
    && |s.opIds| == TX_MAX_OPERATIONS == |s.offsets| && |s.cache| == CACHE_SIZE
  }

  /** Every index stays in range and every counter in 32 bits. */
  ghost predicate Counted(s: Snapshot)
    requires Sized(s)
  {
    && s.state !in {NoState, OpComplexPayload, OpComplexDone}
    && s.remaining < 0x1_0000_0000
    && (if Past(s.state) then Budget(s) <= TX_MAX_OPERATIONS else s.opCount == 0)
    && (Payload(s.state) || s.state in {TxExtensionListSize, Done} ==> s.opCount >= 1)
    && (s.state in {TxExtensionListSize, Done} ==> s.remaining == 0)
    && (s.state == Done ==> !s.processing)
    && (s.state == OperationCheckRemain ==> s.opCount + s.remaining >= 1)
    && (s.state in {OpSimpleDone, OpUnsupportedDone} ==> s.opCount >= 1)
    && (Payload(s.state) ==> (s.state == OpSimplePayload <==> Supported(s.opIds[s.opCount - 1])))
    && (forall i :: 0 <= i < Completed(s) ==> Start(s.offsets, i) <= s.offsets[i] <= CACHE_SIZE)
  }

  ghost predicate Valid(s: Snapshot) {
    && Sized(s)
    && Counted(s)
    && s.fieldLength < 0x1_0000_0000
    && (if s.processing then s.fieldPos <= s.fieldLength && s.tlvPos == 0 else s.tlvPos < TLV_BUFFER)
    && (s.processing && ByteFree(s.state) ==> s.fieldPos == 0)
    && (s.processing && SizeField(s.state) ==> s.fieldPos <= SIZE_BUFFER)
    && s.size[SizeUsed(s)..] == Zeros(SIZE_BUFFER - SizeUsed(s))
  }

  /** The part of sizeBuffer that holds bytes of the current field; the rest of it is zero. */
  function SizeUsed(s: Snapshot): nat {
    if s.processing && SizeField(s.state) then s.fieldPos else 0
  }

  lemma InitValid()
    ensures Valid(Init())
  {
  }

  // ---- one turn of the loop ----

  datatype Step = Step(status: Status, snap: Snapshot, rest: seq<byte>)

  function Min(a: nat, b: nat): nat {
    if a < b then a else b
  }

  function Splice(buf: seq<byte>, pos: nat, bytes: seq<byte>): seq<byte> {
    if pos + |bytes| <= |buf| then buf[..pos] + bytes + buf[pos + |bytes|..] else buf
  }

  /** The payload of a supported operation must fit behind the ones already kept. */
  predicate PayloadFits(s: Snapshot) {
    s.state == OpSimplePayload ==> Start(s.offsets, s.opCount - 1) + s.fieldLength <= CACHE_SIZE
  }

  function Hashed(s: Snapshot, bytes: seq<byte>): Snapshot {
    s.(msgHash := s.msgHash + bytes, txIdHash := s.txIdHash + bytes, fieldPos := s.fieldPos + |bytes|)
  }

  /** Hash some bytes of the current field, and keep them where this kind of field is kept. */
  function Absorb(s: Snapshot, bytes: seq<byte>): Snapshot {
    var h := Hashed(s, bytes);
    if SizeField(s.state) then h.(size := Splice(s.size, s.fieldPos, bytes))
    else if s.state == OpSimplePayload then
      h.(cache := Splice(s.cache, Start(s.offsets, s.opCount - 1) + s.fieldPos, bytes))
    else h
  }

  /** What completing the current field does. */
  function Complete(s: Snapshot, rest: seq<byte>): Step {
    var next := s.(state := Succ(s.state), processing := false);
    match s.state
    case ChainId => Step(Processing, next.(txIdHash := []), rest)
    case RefBlockNum => Step(Processing, next, rest)
    case RefBlockPrefix => Step(Processing, next, rest)
    case Expiration => Step(Processing, next, rest)
    case OperationListSize =>
      (match Varint.Unpacked32(s.size)
       case Throw(_) => Step(Fault, s, rest)
       case Ok((n, _)) =>
         var counted := next.(remaining := n, opCount := 0, size := Zeros(SIZE_BUFFER));
         if n < TX_MIN_OPERATIONS || n > TX_MAX_OPERATIONS
         then Step(Fault, counted.(state := s.state, processing := true), rest)
         else Step(Processing, counted, rest))
    case OperationId =>
      (match Varint.Unpacked32(s.size)
       case Throw(_) => Step(Fault, s, rest)
       case Ok((id, _)) =>
         Step(Processing, next.(opId := id, opIds := Put(s.opIds, s.opCount, id), opCount := s.opCount + 1,
                                size := Zeros(SIZE_BUFFER),
                                state := if Supported(id) then OpSimplePayload else OpUnsupportedPayload), rest))
    case OpSimplePayload =>
      Step(Processing, next.(offsets := Put(s.offsets, s.opCount - 1, Start(s.offsets, s.opCount - 1)
          + s.fieldLength)), rest)
    case OpUnsupportedPayload =>
      Step(Processing, next.(offsets := Put(s.offsets, s.opCount - 1, Start(s.offsets, s.opCount - 1))), rest)
    case TxExtensionListSize =>
      (match Varint.Unpacked32(s.size)
       case Throw(_) => Step(Fault, s, rest)
       case Ok((n, _)) =>
         if n != 0 then Step(Fault, s, rest)
         else Step(Processing, next.(size := Zeros(SIZE_BUFFER)), rest))
    case _ => Step(Fault, s, rest)
  }

  /** The moves that need no byte. */
  function Move(s: Snapshot): Snapshot {
    if s.state != OperationCheckRemain then s.(state := OperationCheckRemain)
    else if s.remaining > 0 then s.(remaining := s.remaining - 1, state := OperationId)
    else s.(state := TxExtensionListSize)
  }

  /** One pass through the switch, with the header of the current field already decoded. */
  function Dispatch(s: Snapshot, input: seq<byte>): Step {
    if ByteFree(s.state) then
      Step(Processing, Move(s), input)
    else if !PayloadFits(s) then
      Step(Fault, s, input)
    else if Overruns(s, input) then
      Step(Overrun, s, input)
    else
      Consume(s, Available(s, input), input)
  }

  /** How many bytes of the current field are at hand. */
  function Available(s: Snapshot, input: seq<byte>): (n: nat)
    ensures n <= |input|
  {
    Min(|input|, if s.fieldPos <= s.fieldLength then s.fieldLength - s.fieldPos else 0)
  }

  /** The copy into sizeBuffer would leave it. */
  predicate Overruns(s: Snapshot, input: seq<byte>) {
    SizeField(s.state) && s.fieldPos + Available(s, input) > SIZE_BUFFER
  }

  /** Absorb n bytes, and complete the field if they were its last. */
  function Consume(s: Snapshot, n: nat, input: seq<byte>): Step
    requires n <= |input|
  {
    var t := Absorb(s, input[..n]);
    if t.fieldPos < t.fieldLength then Step(Processing, t, input[n..]) else Complete(t, input[n..])
  }

  /** A list size is taken if and only if it announces one to four operations. */
  lemma ListSizeExactly(s: Snapshot, rest: seq<byte>)
    requires s.state == OperationListSize
    ensures Complete(s, rest).status == if Varint.Unpacked32(s.size).Ok? && 1 <= Varint.Unpacked32(s.size).value.0 <= 4
                                        then Processing else Fault
    ensures Complete(s, rest).status == Processing ==>
      var t := Complete(s, rest).snap; 1 <= t.remaining <= 4 && t.opCount == 0 && t.state == OperationCheckRemain
  {
    hide Varint.Unpacked32;
  }

  /** The payloads that are kept are those of five operations, as far as they take 768 bytes together. */
  lemma KeptExactly(s: Snapshot)
    ensures Supported(s.opId) <==> s.opId in {0, 1, 2, 6, 8}
    ensures s.state == OpSimplePayload ==> (PayloadFits(s) <==> Start(s.offsets, s.opCount - 1) + s.fieldLength <= 768)
  {
  }

  lemma MoveValid(s: Snapshot)
    requires Valid(s) && ByteFree(s.state)
    ensures Valid(Move(s))
    ensures Move(s).processing == s.processing && Move(s).state != Done
    ensures Move(s).fieldPos == s.fieldPos && Move(s).fieldLength == s.fieldLength
    ensures Move(s).state == OperationCheckRemain <==> s.state != OperationCheckRemain
    ensures s.state == OperationCheckRemain ==> !ByteFree(Move(s).state)
  {
    hide Valid;
    if s.state != OperationCheckRemain {
      DoneMoves(s);
    } else if s.remaining > 0 {
      NextOperation(s);
    } else {
      NoOperationLeft(s);
    }
  }

  lemma DoneMoves(s: Snapshot)
    requires Valid(s) && ByteFree(s.state) && s.state != OperationCheckRemain
    ensures Valid(s.(state := OperationCheckRemain))
  {
    hide Supported, Start, Zeros;
  }

  lemma NextOperation(s: Snapshot)
    requires Valid(s) && s.state == OperationCheckRemain && s.remaining > 0
    ensures Valid(s.(remaining := s.remaining - 1, state := OperationId))
  {
    hide Supported, Start, Zeros;
  }

  lemma NoOperationLeft(s: Snapshot)
    requires Valid(s) && s.state == OperationCheckRemain && s.remaining == 0
    ensures Valid(s.(state := TxExtensionListSize))
  {
    hide Supported, Start, Zeros;
  }

  lemma AbsorbValid(s: Snapshot, bytes: seq<byte>)
    requires Valid(s) && s.processing && !ByteFree(s.state) && PayloadFits(s)
    requires s.fieldPos + |bytes| <= s.fieldLength
    requires SizeField(s.state) ==> s.fieldPos + |bytes| <= SIZE_BUFFER
    ensures Valid(Absorb(s, bytes))
  {
    hide Valid;
    if SizeField(s.state) {
      AbsorbSizeValid(s, bytes);
    } else {
      AbsorbOtherValid(s, bytes);
    }
  }

  lemma AbsorbSizeValid(s: Snapshot, bytes: seq<byte>)
    requires Valid(s) && s.processing && SizeField(s.state)
    requires s.fieldPos + |bytes| <= s.fieldLength && s.fieldPos + |bytes| <= SIZE_BUFFER
    ensures Valid(Absorb(s, bytes))
  {
    hide Supported;
    assert Splice(s.size, s.fieldPos, bytes)[s.fieldPos + |bytes|..] == s.size[s.fieldPos..][|bytes|..];
  }

  lemma AbsorbOtherValid(s: Snapshot, bytes: seq<byte>)
    requires Valid(s) && s.processing && !ByteFree(s.state) && !SizeField(s.state) && PayloadFits(s)
    requires s.fieldPos + |bytes| <= s.fieldLength
    ensures Valid(Absorb(s, bytes))
  {
    hide Supported;
    var at := Start(s.offsets, s.opCount - 1) + s.fieldPos;
    SpliceLength(s.cache, at, bytes);
    hide Splice;
  }

  lemma SpliceLength(buf: seq<byte>, pos: nat, bytes: seq<byte>)
    ensures |Splice(buf, pos, bytes)| == |buf|
  {
  }

  lemma CompleteValid(s: Snapshot, rest: seq<byte>)
    requires Valid(s) && s.processing && !ByteFree(s.state) && PayloadFits(s)
    ensures Complete(s, rest).status in {Processing, Fault} && Complete(s, rest).rest == rest
    ensures Valid(Complete(s, rest).snap)
    ensures Complete(s, rest).status == Processing ==> !Complete(s, rest).snap.processing
  {
    hide Valid;
    if Payload(s.state) {
      OffsetsValid(s, rest);
      hide Complete, Valid;
    } else {
      OtherValid(s, rest);
    }
  }

  lemma OtherValid(s: Snapshot, rest: seq<byte>)
    requires Valid(s) && s.processing && !ByteFree(s.state) && !Payload(s.state)
    ensures Valid(Complete(s, rest).snap)
  {
    UnpackedBelow(s.size);
    hide Varint.Unpacked32;
  }

  lemma UnpackedBelow(size: seq<byte>)
    ensures match Varint.Unpacked32(size) case Ok((n, _)) => n < 0x1_0000_0000 case Throw(_) => true
  {
  }

  lemma OffsetsValid(s: Snapshot, rest: seq<byte>)
    requires Valid(s) && s.processing && Payload(s.state) && PayloadFits(s)
    ensures Complete(s, rest).status == Processing && Valid(Complete(s, rest).snap)
    ensures Complete(s, rest).rest == rest && !Complete(s, rest).snap.processing
  {
    hide Valid, Complete, Start, Put, Payload;
    var last := s.opCount - 1;
    var end := Start(s.offsets, last) + if s.state == OpSimplePayload then s.fieldLength else 0;
    LastStart(s);
    PayloadCompletes(s, rest, end);
    OffsetsPut(s.offsets, last, end);
    DoneValid(s, Put(s.offsets, last, end));
  }

  /** What is known of the offsets while a payload is read that fits. */
  lemma LastStart(s: Snapshot)
    requires Valid(s) && Payload(s.state)
    ensures 1 <= s.opCount <= |s.offsets| == TX_MAX_OPERATIONS && Start(s.offsets, s.opCount - 1) <= CACHE_SIZE
    ensures PayloadFits(s) && s.state == OpSimplePayload ==>
        Start(s.offsets, s.opCount - 1) + s.fieldLength <= CACHE_SIZE
    ensures forall i :: 0 <= i < s.opCount - 1 ==> Start(s.offsets, i) <= s.offsets[i] <= CACHE_SIZE
  {
    hide Start;
    var last := s.opCount - 1;
    NextStart(s.offsets, last);
    assert last > 0 ==> Start(s.offsets, last - 1) <= s.offsets[last - 1] <= CACHE_SIZE;
  }

  lemma NextStart(offsets: seq<nat>, i: nat)
    ensures Start(offsets, i) == if 1 <= i <= |offsets| then offsets[i - 1] else 0
  {
  }

  function AfterPayload(state: State): State {
    if state == OpSimplePayload then OpSimpleDone else OpUnsupportedDone
  }

  lemma PayloadCompletes(s: Snapshot, rest: seq<byte>, end: nat)
    requires Payload(s.state)
    requires end == Start(s.offsets, s.opCount - 1) + if s.state == OpSimplePayload then s.fieldLength else 0
    ensures Complete(s, rest) == Step(
      Processing, s.(state := AfterPayload(s.state), processing := false,
          offsets := Put(s.offsets, s.opCount - 1, end)), rest)
  {
    hide Start, Put, Varint.Unpacked32;
  }

  lemma DoneValid(s: Snapshot, offsets: seq<nat>)
    requires Valid(s) && Payload(s.state) && |offsets| == TX_MAX_OPERATIONS
    requires forall i :: 0 <= i < s.opCount ==> Start(offsets, i) <= offsets[i] <= CACHE_SIZE
    ensures Valid(s.(state := AfterPayload(s.state), processing := false, offsets := offsets))
  {
    hide Start, Supported;
  }

  /** One more offset, not below the one before it. */
  lemma OffsetsPut(offsets: seq<nat>, last: nat, end: nat)
    requires last < |offsets| && Start(offsets, last) <= end <= CACHE_SIZE
    requires forall i :: 0 <= i < last ==> Start(offsets, i) <= offsets[i] <= CACHE_SIZE
    ensures |Put(offsets, last, end)| == |offsets|
    ensures forall i :: 0 <= i < last + 1 ==>
        Start(Put(offsets, last, end), i) <= Put(offsets, last, end)[i] <= CACHE_SIZE
  {
    var t := Put(offsets, last, end);
    forall i | 0 <= i < last + 1 ensures Start(t, i) <= t[i] <= CACHE_SIZE {
      assert Start(t, i) == Start(offsets, i);
    }
  }

  ghost predicate GoodTurn(s: Snapshot, input: seq<byte>, r: Step) {
    && r.status != Finished
    && (r.status == Processing || r.status == Fault ==> Valid(r.snap))
    && |r.rest| <= |input| && r.rest == input[|input| - |r.rest|..]
    && (r.status == Processing && r.rest != [] ==> |r.rest| < |input| || Rank(r.snap) < Rank(s))
    && (r.status == Processing && Past(s.state) ==> Past(r.snap.state) && Budget(r.snap) == Budget(s))
  }

  /**
   * A turn keeps the invariant, reads a prefix of the input, and either reads a byte or comes closer to reading one.
   * Once the operation count has been read, operations seen, due and to come add up to the same number after it.
   */
  lemma DispatchValid(s: Snapshot, input: seq<byte>)
    requires Valid(s) && s.processing
    ensures GoodTurn(s, input, Dispatch(s, input))
  {
    if ByteFree(s.state) {
      MoveTurn(s, input);
    } else {
      FieldTurn(s, input);
    }
  }

  lemma FieldTurn(s: Snapshot, input: seq<byte>)
    requires Valid(s) && s.processing && !ByteFree(s.state)
    ensures GoodTurn(s, input, Dispatch(s, input))
  {
    if !PayloadFits(s) {
      StopTurn(s, input, Fault);
    } else if Overruns(s, input) {
      StopTurn(s, input, Overrun);
    } else {
      ConsumeTurn(s, Available(s, input), input);
    }
  }

  lemma StopTurn(s: Snapshot, input: seq<byte>, status: Status)
    requires Valid(s) && status in {Fault, Overrun}
    ensures GoodTurn(s, input, Step(status, s, input))
  {
  }

  lemma MoveTurn(s: Snapshot, input: seq<byte>)
    requires Valid(s) && s.processing && ByteFree(s.state)
    ensures GoodTurn(s, input, Step(Processing, Move(s), input))
  {
    MoveValid(s);
  }

  lemma ConsumeTurn(s: Snapshot, n: nat, input: seq<byte>)
    requires Valid(s) && s.processing && !ByteFree(s.state) && PayloadFits(s)
    requires n == Available(s, input) && !Overruns(s, input)
    ensures GoodTurn(s, input, Consume(s, n, input))
  {
    hide Valid, Consume, PayloadFits, Budget, Past;
    AtHand(s, input);
    ConsumeValid(s, n, input);
    ConsumeBudget(s, n, input);
  }

  lemma AtHand(s: Snapshot, input: seq<byte>)
    requires Valid(s) && s.processing
    ensures var n := Available(s, input);
      && s.fieldPos + n <= s.fieldLength && (s.fieldPos + n < s.fieldLength ==> n == |input|)
      && (SizeField(s.state) && !Overruns(s, input) ==> s.fieldPos + n <= SIZE_BUFFER)
  {
  }

  lemma ConsumeBudget(s: Snapshot, n: nat, input: seq<byte>)
    requires n <= |input| && !ByteFree(s.state)
    ensures var r := Consume(s, n, input);
      r.status == Processing && Past(s.state) ==> Past(r.snap.state) && Budget(r.snap) == Budget(s)
  {
    hide Splice, Varint.Unpacked32, Start, Put;
  }

  lemma ConsumeValid(s: Snapshot, n: nat, input: seq<byte>)
    requires Valid(s) && s.processing && !ByteFree(s.state) && PayloadFits(s)
    requires n <= |input| && s.fieldPos + n <= s.fieldLength
    requires SizeField(s.state) ==> s.fieldPos + n <= SIZE_BUFFER
    ensures var r := Consume(s, n, input);
      && r.status in {Processing, Fault} && r.rest == input[n..] && Valid(r.snap)
      && (r.status == Processing && s.fieldPos + n < s.fieldLength ==> r.snap.processing && r.snap.state == s.state)
      && (r.status == Processing && s.fieldPos + n == s.fieldLength ==> !r.snap.processing)
  {
    AbsorbValid(s, input[..n]);
    var t := Absorb(s, input[..n]);
    if t.fieldPos == t.fieldLength {
      CompleteValid(t, input[n..]);
    }
  }

  // ---- the loop ----

  /** Turns that may follow without a byte being read: finish a field, or first walk from a DONE state to it. */
  function Rank(s: Snapshot): nat {
    if !s.processing then 0
    else if s.state == OperationCheckRemain then 2
    else if ByteFree(s.state) then 3
    else 1
  }

  /** A header byte arrives. */
  function PushHeader(s: Snapshot, b: byte): Snapshot {
    s.(tlv := Splice(s.tlv, s.tlvPos, [b]), tlvPos := s.tlvPos + 1)
  }

  function OpenField(s: Snapshot, length: nat): Snapshot {
    s.(fieldLength := length, fieldPos := 0, tlvPos := 0, processing := true)
  }

  datatype HeaderStep = Bad(snap: Snapshot) | More(snap: Snapshot) | Opened(snap: Snapshot)

  /** One byte of a header: rejected, not the last one, or the one that opens the field. */
  function ReadHeader(s: Snapshot, b: byte): HeaderStep {
    var t := PushHeader(s, b);
    match if t.tlvPos <= |t.tlv| then TryDecode(t.tlv[..t.tlvPos]) else Invalid
    case Invalid => Bad(t)
    case Incomplete => if t.tlvPos == TLV_BUFFER then Bad(t) else More(t)
    case Complete(n) => Opened(OpenField(t, n))
  }

  lemma PushValid(s: Snapshot, b: byte)
    requires Valid(s) && !s.processing
    ensures s.tlvPos + 1 < TLV_BUFFER ==> Valid(PushHeader(s, b))
  {
  }

  lemma OpenValid(s: Snapshot, b: byte, n: nat)
    requires Valid(s) && !s.processing && s.state != Done && n < 0x1_0000_0000
    ensures Valid(OpenField(PushHeader(s, b), n))
  {
  }

  lemma HeaderValid(s: Snapshot, b: byte)
    requires Valid(s) && !s.processing && s.state != Done
    ensures var h := ReadHeader(s, b);
      && h.snap.state == s.state
      && (h.Bad? ==> Valid(h.snap) || Full(h.snap))
      && (h.More? ==> Valid(h.snap) && !h.snap.processing)
      && (h.Opened? ==> Valid(h.snap) && h.snap.processing)
  {
    PushValid(s, b);
    var t := PushHeader(s, b);
    var d := TryDecode(t.tlv[..t.tlvPos]);
    if d.Complete? {
      DecodedLength(t.tlv[..t.tlvPos]);
      OpenValid(s, b, d.length);
    }
    hide TryDecode, Valid;
  }

  /** A header that was given up because tlvBuffer is full: the next byte would be written behind it. */
  predicate Full(s: Snapshot) {
    !s.processing && s.tlvPos == TLV_BUFFER && s.state != Done
  }

  /** A whole call: status, snapshot and the bytes left unread. */
  function Run(s: Snapshot, input: seq<byte>): (r: Step)
    requires Valid(s)
    ensures r.status == Processing || r.status == Finished ==> Valid(r.snap)
    ensures r.status == Fault ==> Valid(r.snap) || Full(r.snap)
    ensures r.status == Finished <==> r.status != Fault && r.status != Overrun && r.snap.state == Done
    decreases |input|, Rank(s), 1
  {
    if s.state == Done then Step(Finished, s, input)
    else if input == [] then Step(Processing, s, [])
    else if s.processing then Turn(s, input)
    else
      HeaderValid(s, input[0]);
      match ReadHeader(s, input[0])
      case Bad(t) => Step(Fault, t, input[1..])
      case More(t) => Run(t, input[1..])
      case Opened(t) => Turn(t, input[1..])
  }

  /** A call, from a point where a field has been opened. */
  function Turn(s: Snapshot, input: seq<byte>): (r: Step)
    requires Valid(s) && s.processing
    ensures r.status == Processing || r.status == Finished ==> Valid(r.snap)
    ensures r.status == Fault ==> Valid(r.snap) || Full(r.snap)
    ensures r.status == Finished <==> r.status != Fault && r.status != Overrun && r.snap.state == Done
    decreases |input|, Rank(s), 0
  {
    DispatchValid(s, input);
    var d := Dispatch(s, input);
    if d.status != Processing then d
    else if d.rest == [] then Step(if d.snap.state == Done then Finished else Processing, d.snap, [])
    else Run(d.snap, d.rest)
  }

  lemma DecodedLength(h: seq<byte>)
    requires h != [] && TryDecode(h).Complete?
    ensures TryDecode(h).length < 0x1_0000_0000
  {
    if h[1] >= 128 {
      var d: seq<nat> := h[2..2 + (h[1] - 128)];
      ValBound(d, 256);
      PowMono(256, |d|, 4);
      Bound24();
      assert Pow(256, 4) == 256 * Pow(256, 3);
    }
  }
}
