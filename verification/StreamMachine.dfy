/** The transaction machine as the program runs it: buffers updated in place, one chunk of bytes per call. */
module StreamMachine {
  import opened Numerals
  import opened StreamSpec
  import opened StreamChunks
  import Tlv
  import Varint

  /** What is kept for display. */
  class TxContent {
    var operationCount: nat
    const operationIds: array<nat>
    const operationOffsets: array<nat>
    const operationDataBuffer: array<byte>

    constructor ()
      ensures fresh(operationIds) && fresh(operationOffsets) && fresh(operationDataBuffer)
      ensures operationIds != operationOffsets
      ensures operationIds.Length == TX_MAX_OPERATIONS == operationOffsets.Length
      ensures operationDataBuffer.Length == CACHE_SIZE
    {
      operationCount := 0;
      operationIds := new nat[TX_MAX_OPERATIONS];
      operationOffsets := new nat[TX_MAX_OPERATIONS];
      operationDataBuffer := new byte[CACHE_SIZE];
    }

    /** `initTxProcessingContent` */
    method Init()
      modifies this, operationIds, operationOffsets, operationDataBuffer
      ensures operationCount == 0
      ensures operationIds.Length == 4 && operationIds != operationOffsets ==> operationIds[..] == [0, 0, 0, 0]
      ensures operationOffsets.Length == 4 ==> operationOffsets[..] == [0, 0, 0, 0]
      ensures operationDataBuffer[..] == Zeros(operationDataBuffer.Length)
    {
      operationCount := 0;
      forall k | 0 <= k < operationIds.Length { operationIds[k] := 0; }
      forall k | 0 <= k < operationOffsets.Length { operationOffsets[k] := 0; }
      forall k | 0 <= k < operationDataBuffer.Length { operationDataBuffer[k] := 0; }
    }
  }

  class TxContext {
    var state: State
    var sha256: seq<byte>
    var txIdSha256: seq<byte>
    var currentFieldLength: nat
    var currentFieldPos: nat
    var operationsRemaining: nat
    var currentOperationId: nat
    var processingField: bool
    const tlvBuffer: array<byte>
    var tlvBufferPos: nat
    var workBuffer: seq<byte>
    var commandLength: nat
    const sizeBuffer: array<byte>
    const content: TxContent

    ghost const Repr: set<object> := {this, tlvBuffer, sizeBuffer, content,
      content.operationIds, content.operationOffsets, content.operationDataBuffer}

    /** The buffers have their sizes and do not overlap. */
    ghost predicate Separate() {
      && tlvBuffer.Length == TLV_BUFFER && sizeBuffer.Length == SIZE_BUFFER
      && content.operationIds.Length == TX_MAX_OPERATIONS == content.operationOffsets.Length
      && content.operationDataBuffer.Length == CACHE_SIZE
      && tlvBuffer != sizeBuffer && tlvBuffer != content.operationDataBuffer
      && sizeBuffer != content.operationDataBuffer
      && content.operationIds != content.operationOffsets
    }

    ghost function View(): Snapshot
      reads Repr
    {
      Snapshot(state, currentFieldLength, currentFieldPos, operationsRemaining, currentOperationId, processingField,
               tlvBuffer[..], tlvBufferPos, sizeBuffer[..], sha256, txIdSha256,
               content.operationCount, content.operationIds[..], content.operationOffsets[..],
               content.operationDataBuffer[..])
    }

    /** Between turns: the machine is in a valid snapshot and commandLength counts the bytes at workBuffer. */
    ghost predicate Ready()
      reads Repr
    {
      Separate() && Valid(View()) && commandLength == |workBuffer|
    }

    constructor (content: TxContent)
      requires content.operationIds.Length == TX_MAX_OPERATIONS == content.operationOffsets.Length
      requires content.operationDataBuffer.Length == CACHE_SIZE
      requires content.operationIds != content.operationOffsets
      ensures this.content == content && Separate() && state == NoState
      ensures fresh(Repr - {content, content.operationIds, content.operationOffsets, content.operationDataBuffer})
    {
      this.content := content;
      tlvBuffer := new byte[TLV_BUFFER];
      sizeBuffer := new byte[SIZE_BUFFER];
      state, sha256, txIdSha256 := NoState, [], [];
      currentFieldLength, currentFieldPos, operationsRemaining, currentOperationId := 0, 0, 0, 0;
      processingField, tlvBufferPos, workBuffer, commandLength := false, 0, [], 0;
    }

    /** `initTxProcessingContext` followed by `initTxProcessingContent`, as every signing request begins. */
    method Init()
      requires Separate()
      modifies Repr
      ensures View() == StreamSpec.Init() && Ready()
    {
      hide Valid;
      InitValid();
      InitContext();
      content.Init();
    }

    /** `initTxProcessingContext` */
    method InitContext()
      requires Separate()
      modifies this, tlvBuffer, sizeBuffer
      ensures View() == StreamSpec.Init().(opCount := old(View()).opCount, opIds := old(View()).opIds,
                                           offsets := old(View()).offsets, cache := old(View()).cache)
      ensures workBuffer == [] && commandLength == 0
    {
      InitBuffers();
      InitFields();
    }

    method InitFields()
      modifies this
      ensures View() == StreamSpec.Init().(
        tlv := old(View()).tlv, size := old(View()).size, opCount := old(View()).opCount, opIds := old(View()).opIds,
        offsets := old(View()).offsets, cache := old(View()).cache)
      ensures workBuffer == [] && commandLength == 0
    {
      currentFieldLength, currentFieldPos, operationsRemaining, currentOperationId := 0, 0, 0, 0;
      processingField, tlvBufferPos, workBuffer, commandLength := false, 0, [], 0;
      state := ChainId;
      sha256, txIdSha256 := [], [];
    }

    method InitBuffers()
      requires Separate()
      modifies tlvBuffer, sizeBuffer
      ensures tlvBuffer[..] == Zeros(TLV_BUFFER) && sizeBuffer[..] == Zeros(SIZE_BUFFER)
    {
      forall k | 0 <= k < tlvBuffer.Length { tlvBuffer[k] := 0; }
      forall k | 0 <= k < sizeBuffer.Length { sizeBuffer[k] := 0; }
    }

    ghost function Copied(copybuffer: array?<byte>, at: nat, s: Snapshot, bytes: seq<byte>): Snapshot {
      if copybuffer == null then s
      else if copybuffer == sizeBuffer then s.(size := Splice(s.size, at, bytes))
      else s.(cache := Splice(s.cache, at, bytes))
    }

    /** os_memmove */
    static method Move(buffer: array<byte>, at: nat, bytes: seq<byte>)
      requires at + |bytes| <= buffer.Length
      modifies buffer
      ensures buffer[..] == Splice(old(buffer[..]), at, bytes)
    {
      forall k | 0 <= k < |bytes| {
        buffer[at + k] := bytes[k];
      }
    }

    /** Move the bytes into the given buffer, if one is given. */
    method Keep(copybuffer: array?<byte>, at: nat, bytes: seq<byte>)
      requires Separate() && (copybuffer != null ==> at + |bytes| <= copybuffer.Length)
      requires copybuffer == null || copybuffer == sizeBuffer || copybuffer == content.operationDataBuffer
      modifies copybuffer
      ensures View() == Copied(copybuffer, at, old(View()), bytes)
    {
      hide Splice;
      if copybuffer != null {
        Move(copybuffer, at, bytes);
      }
    }

    /** Leave bytes of the current field behind. */
    method Advance(length: nat)
      requires commandLength == |workBuffer| && length <= |workBuffer|
      modifies this`workBuffer, this`commandLength, this`currentFieldPos
      ensures workBuffer == old(workBuffer)[length..] && commandLength == |workBuffer|
      ensures View() == old(View()).(fieldPos := old(View()).fieldPos + length)
    {
      workBuffer := workBuffer[length..];
      commandLength := commandLength - length;
      currentFieldPos := currentFieldPos + length;
    }

    /** Hash bytes, keep them if a buffer is given, and leave them behind. */
    method TakeBytes(copybuffer: array?<byte>, at: nat, length: nat)
      requires Separate() && commandLength == |workBuffer| && length <= |workBuffer|
      requires copybuffer == null || copybuffer == sizeBuffer || copybuffer == content.operationDataBuffer
      requires copybuffer != null ==> at + length <= copybuffer.Length
      modifies this, copybuffer
      ensures commandLength == |workBuffer| && workBuffer == old(workBuffer)[length..]
      ensures View() == Hashed(Copied(copybuffer, at, old(View()), old(workBuffer)[..length]),
          old(workBuffer)[..length])
    {
      hide Splice, Copied, Hashed;
      CopyCommutes(copybuffer, at, View(), workBuffer[..length]);
      HashTxData(workBuffer[..length]);
      Keep(copybuffer, at, workBuffer[..length]);
      Advance(length);
    }

    /**
     * `processHelperGobbleCommandBytes`: hash what is at hand of the current field and, if a buffer is given,
     * keep it at buffer[offset + currentFieldPos..]. Returns false, having done nothing, if it would not fit there.
     */
    method GobbleCommandBytes(copybuffer: array?<byte>, offset: nat) returns (inBounds: bool)
      requires Separate() && commandLength == |workBuffer| && currentFieldPos <= currentFieldLength
      requires copybuffer == null || copybuffer == sizeBuffer || copybuffer == content.operationDataBuffer
      modifies this, copybuffer
      ensures commandLength == |workBuffer|
      ensures inBounds <==>
        (copybuffer == null || offset + old(currentFieldPos)
            + Available(old(View()), old(workBuffer)) <= copybuffer.Length)
      ensures !inBounds ==> workBuffer == old(workBuffer) && View() == old(View())
      ensures inBounds ==> workBuffer == old(workBuffer)[Available(old(View()), old(workBuffer))..]
      ensures inBounds ==> 
        var bytes := old(workBuffer)[..Available(old(View()), old(workBuffer))];
        View() == Hashed(Copied(copybuffer, offset + old(currentFieldPos), old(View()), bytes), bytes)
    {
      hide Splice, Available, Copied, Hashed;
      ghost var input := workBuffer;
      AvailableIs(View(), input);
      var length := if commandLength < currentFieldLength - currentFieldPos
                    then commandLength else currentFieldLength - currentFieldPos;
      if copybuffer != null && offset + currentFieldPos + length > copybuffer.Length {
        return false;
      }
      TakeBytes(copybuffer, offset + currentFieldPos, length);
      return true;
    }

    /** Hashing and keeping do not get in each other's way. */
    lemma CopyCommutes(copybuffer: array?<byte>, at: nat, s: Snapshot, bytes: seq<byte>)
      ensures var h := s.(msgHash := s.msgHash + bytes, txIdHash := s.txIdHash + bytes);
        && Copied(copybuffer, at, h, bytes).(fieldPos := s.fieldPos + |bytes|)
            == Hashed(Copied(copybuffer, at, s, bytes), bytes)
    {
      hide Splice;
    }

    static lemma AvailableIs(s: Snapshot, input: seq<byte>)
      requires s.fieldPos <= s.fieldLength
      ensures Available(s, input)
          == if |input| < s.fieldLength - s.fieldPos then |input| else s.fieldLength - s.fieldPos
    {
    }

    /** `hashTxData` */
    method HashTxData(bytes: seq<byte>)
      modifies this`sha256, this`txIdSha256
      ensures sha256 == old(sha256) + bytes && txIdSha256 == old(txIdSha256) + bytes
    {
      sha256 := sha256 + bytes;
      txIdSha256 := txIdSha256 + bytes;
    }

    /**
     * The opening part shared by the field functions: gather what is at hand of the current field.
     * Returns false where the copy would leave sizeBuffer.
     */
    method Gather(copybuffer: array?<byte>, offset: nat) returns (inBounds: bool)
      requires Ready() && processingField && !ByteFree(state) && PayloadFits(View())
      requires copybuffer == (if SizeField(state) then sizeBuffer
                              else if state == OpSimplePayload then content.operationDataBuffer else null)
      requires offset == if state == OpSimplePayload then Start(View().offsets, content.operationCount - 1) else 0
      modifies this, copybuffer
      ensures commandLength == |workBuffer|
      ensures inBounds <==> !Overruns(old(View()), old(workBuffer))
      ensures !inBounds ==> workBuffer == old(workBuffer) && View() == old(View())
      ensures inBounds ==>
        var n := Available(old(View()), old(workBuffer));
        workBuffer == old(workBuffer)[n..] && View() == Absorb(old(View()), old(workBuffer)[..n])
    {
      hide Valid, Splice, Start, Absorb, PayloadFits, Available, Hashed, Overruns, Copied;
      inBounds := true;
      ghost var s, input := View(), workBuffer;
      FieldFacts(s, input);
      if currentFieldPos < currentFieldLength {
        CopiedIsAbsorbed(copybuffer, offset, s, input[..Available(s, input)]);
        inBounds := GobbleCommandBytes(copybuffer, offset);
      } else {
        EmptyAbsorb(s);
      }
    }

    /** The copy goes where this kind of field is kept. */
    lemma CopiedIsAbsorbed(copybuffer: array?<byte>, offset: nat, s: Snapshot, bytes: seq<byte>)
      requires Separate()
      requires copybuffer == (if SizeField(s.state) then sizeBuffer
                              else if s.state == OpSimplePayload then content.operationDataBuffer else null)
      requires offset == if s.state == OpSimplePayload then Start(s.offsets, s.opCount - 1) else 0
      ensures Absorb(s, bytes) == Hashed(Copied(copybuffer, offset + s.fieldPos, s, bytes), bytes)
    {
      hide Splice, Start, Hashed, Absorb;
      AbsorbIsCopy(s, bytes);
    }

    /** Absorbing is hashing, after a copy to the place where this kind of field is kept. */
    static lemma AbsorbIsCopy(s: Snapshot, bytes: seq<byte>)
      ensures SizeField(s.state) ==> Absorb(s, bytes) == Hashed(s.(size := Splice(s.size, s.fieldPos, bytes)), bytes)
      ensures s.state == OpSimplePayload ==>
        Absorb(s, bytes) == Hashed(s.(cache := Splice(s.cache, Start(s.offsets, s.opCount - 1) + s.fieldPos, bytes)),
            bytes)
      ensures !SizeField(s.state) && s.state != OpSimplePayload ==> Absorb(s, bytes) == Hashed(s, bytes)
    {
      hide Splice, Start;
    }

    /** What is known of a field that is being read. */
    static lemma FieldFacts(s: Snapshot, input: seq<byte>)
      requires Valid(s) && s.processing
      ensures s.fieldPos <= s.fieldLength && (SizeField(s.state) ==> s.fieldPos <= SIZE_BUFFER)
      ensures PayloadFits(s) && s.state == OpSimplePayload ==>
        Start(s.offsets, s.opCount - 1) + s.fieldPos + Available(s, input) <= CACHE_SIZE
      ensures s.fieldPos == s.fieldLength ==> Available(s, input) == 0
      ensures Overruns(s, input) <==> SizeField(s.state) && s.fieldPos + Available(s, input) > SIZE_BUFFER
    {
    }

    /** What the caller of Gather goes on with. */
    static lemma GatherTurn(s: Snapshot, input: seq<byte>)
      requires Valid(s) && s.processing && !ByteFree(s.state)
      ensures s.state == OperationId ==> s.opCount < TX_MAX_OPERATIONS
      ensures Payload(s.state) ==> 1 <= s.opCount <= TX_MAX_OPERATIONS
      ensures !Payload(s.state) || s.state == OpUnsupportedPayload ==> PayloadFits(s)
      ensures !Overruns(s, input) ==>
        var t := Absorb(s, input[..Available(s, input)]);
        && t.state == s.state && t.processing && t.fieldLength == s.fieldLength && t.fieldPos <= t.fieldLength
        && t.opCount == s.opCount && t.offsets == s.offsets
    {
    }

    static lemma EmptyAbsorb(s: Snapshot)
      requires Valid(s) && s.processing && !ByteFree(s.state) && PayloadFits(s)
      requires s.fieldPos == s.fieldLength
      ensures Absorb(s, []) == s
    {
      assert s.msgHash + [] == s.msgHash && s.txIdHash + [] == s.txIdHash;
      if SizeField(s.state) {
        assert Splice(s.size, s.fieldPos, []) == s.size;
      } else if s.state == OpSimplePayload {
        assert Splice(s.cache, Start(s.offsets, s.opCount - 1) + s.fieldPos, []) == s.cache;
      }
    }

    /** `processField` */
    method ProcessField() returns (status: Status)
      requires Ready() && processingField && state in {RefBlockNum, RefBlockPrefix, Expiration}
      modifies Repr
      ensures commandLength == |workBuffer|
      ensures Step(status, View(), workBuffer) == Dispatch(old(View()), old(workBuffer))
    {
      var _ := Gather(null, 0);
      if currentFieldPos == currentFieldLength {
        state := Succ(state);
        processingField := false;
      }
      return Processing;
    }

    /** `processChainIdField`: the id hash starts over once the chain id has been absorbed. */
    method ProcessChainIdField() returns (status: Status)
      requires Ready() && processingField && state == ChainId
      modifies Repr
      ensures commandLength == |workBuffer|
      ensures Step(status, View(), workBuffer) == Dispatch(old(View()), old(workBuffer))
    {
      var _ := Gather(null, 0);
      if currentFieldPos == currentFieldLength {
        txIdSha256 := [];
        state := Succ(state);
        processingField := false;
      }
      return Processing;
    }

    /** os_memset(sizeBuffer, 0, ...) */
    method ClearSizeBuffer()
      requires Separate()
      modifies sizeBuffer
      ensures View() == old(View()).(size := Zeros(SIZE_BUFFER))
    {
      forall k | 0 <= k < sizeBuffer.Length {
        sizeBuffer[k] := 0;
      }
      assert sizeBuffer[..] == Zeros(SIZE_BUFFER);
    }

    /** `processZeroSizeField`: the number of transaction extensions must be zero. */
    method ProcessZeroSizeField() returns (status: Status)
      requires Ready() && processingField && state == TxExtensionListSize
      modifies Repr
      ensures commandLength == |workBuffer|
      ensures Step(status, View(), workBuffer) == Dispatch(old(View()), old(workBuffer))
    {
      hide Valid, Absorb, StreamSpec.Complete, Overruns, Available, PayloadFits;
      GatherTurn(View(), workBuffer);
      var inBounds := Gather(sizeBuffer, 0);
      if !inBounds {
        return Overrun;
      }
      if currentFieldPos == currentFieldLength {
        status := CompleteZeroSizeField();
        return;
      }
      return Processing;
    }

    method CompleteZeroSizeField() returns (status: Status)
      requires Separate() && state == TxExtensionListSize
      modifies this`state, this`processingField, sizeBuffer
      ensures Step(status, View(), workBuffer) == Complete(old(View()), workBuffer)
    {
      hide Varint.Unpacked32;
      var size := Varint.UnpackVarint32(sizeBuffer[..]);
      if size.Throw? || size.value.0 != 0 {
        return Fault;
      }
      ClearSizeBuffer();
      state := Succ(state);
      processingField := false;
      return Processing;
    }

    /** `processOperationListSizeField` */
    method ProcessOperationListSizeField() returns (status: Status)
      requires Ready() && processingField && state == OperationListSize
      modifies Repr
      ensures commandLength == |workBuffer|
      ensures state == OperationCheckRemain ==> status == Processing && 1 <= operationsRemaining <= 4
      ensures status == Fault ==> Varint.Unpacked32(sizeBuffer[..]).Throw? || !(1 <= operationsRemaining <= 4)
      ensures Step(status, View(), workBuffer) == Dispatch(old(View()), old(workBuffer))
    {
      hide Valid, Absorb, StreamSpec.Complete, Overruns, Available, PayloadFits;
      GatherTurn(View(), workBuffer);
      var inBounds := Gather(sizeBuffer, 0);
      if !inBounds {
        return Overrun;
      }
      if currentFieldPos == currentFieldLength {
        status := CompleteOperationListSizeField();
        return;
      }
      return Processing;
    }

    method CompleteOperationListSizeField() returns (status: Status)
      requires Separate() && state == OperationListSize && processingField
      modifies this`state, this`processingField, this`operationsRemaining, content`operationCount, sizeBuffer
      ensures Step(status, View(), workBuffer) == Complete(old(View()), workBuffer)
      ensures status == Processing <==> Varint.Unpacked32(old(sizeBuffer[..])).Ok? && 1 <= operationsRemaining <= 4
      ensures status == Processing || status == Fault
      ensures status == Fault ==> state == OperationListSize
      ensures Varint.Unpacked32(old(sizeBuffer[..])).Throw? ==> sizeBuffer[..] == old(sizeBuffer[..])
    {
      hide Varint.Unpacked32;
      var size := Varint.UnpackVarint32(sizeBuffer[..]);
      if size.Throw? {
        return Fault;
      }
      RecordCount(size.value.0);
      if size.value.0 < TX_MIN_OPERATIONS || size.value.0 > TX_MAX_OPERATIONS {
        return Fault;
      }
      state := Succ(state);
      processingField := false;
      return Processing;
    }

    /** The number of operations is known, and none of them has been seen. */
    method RecordCount(n: nat)
      requires Separate()
      modifies this`operationsRemaining, content`operationCount, sizeBuffer
      ensures View() == old(View()).(remaining := n, opCount := 0, size := Zeros(SIZE_BUFFER))
    {
      operationsRemaining := n;
      content.operationCount := 0;
      ClearSizeBuffer();
    }

    /** `processOperationIdField`, and the choice of the next state by the id just read. */
    method ProcessOperationIdField() returns (status: Status)
      requires Ready() && processingField && state == OperationId
      modifies Repr
      ensures commandLength == |workBuffer|
      ensures Step(status, View(), workBuffer) == Dispatch(old(View()), old(workBuffer))
    {
      hide Valid, Absorb, StreamSpec.Complete, Overruns, Available, PayloadFits;
      GatherTurn(View(), workBuffer);
      var inBounds := Gather(sizeBuffer, 0);
      if !inBounds {
        return Overrun;
      }
      if currentFieldPos == currentFieldLength {
        status := CompleteOperationIdField();
        return;
      }
      return Processing;
    }

    /** An id that was read is entered, and decides whether its payload is to be kept. */
    static lemma CompleteId(s: Snapshot, rest: seq<byte>)
      requires s.state == OperationId
      ensures StreamSpec.Complete(s, rest) ==
        match Varint.Unpacked32(s.size)
        case Throw(_) => Step(Fault, s, rest)
        case Ok((id, _)) =>
          Step(Processing, s.(opId := id, opIds := Put(s.opIds, s.opCount, id), opCount := s.opCount + 1,
                              size := Zeros(SIZE_BUFFER), processing := false,
                              state := if Supported(id) then OpSimplePayload else OpUnsupportedPayload), rest)
    {
      hide Varint.Unpacked32, Put;
    }

    method CompleteOperationIdField() returns (status: Status)
      requires Separate() && state == OperationId && content.operationCount < TX_MAX_OPERATIONS
      modifies this`state, this`processingField, this`currentOperationId, content`operationCount,
          content.operationIds, sizeBuffer
      ensures Step(status, View(), workBuffer) == Complete(old(View()), workBuffer)
    {
      hide StreamSpec.Complete, Varint.Unpacked32, Put, Supported;
      CompleteId(View(), workBuffer);
      var id := Varint.UnpackVarint32(sizeBuffer[..]);
      if id.Throw? {
        return Fault;
      }
      RecordOperation(id.value.0);
      ClearSizeBuffer();
      ChoosePayload();
      return Processing;
    }

    /** The end of the field, and the case distinction behind it. */
    method ChoosePayload()
      modifies this`state, this`processingField
      ensures View() == old(View()).(
        processing := false, state := if Supported(old(View()).opId) then OpSimplePayload else OpUnsupportedPayload)
    {
      state := Succ(state);
      processingField := false;
      state := if Supported(currentOperationId) then OpSimplePayload else OpUnsupportedPayload;
    }

    /** Push an operation id back into the content. */
    method RecordOperation(id: nat)
      requires Separate() && content.operationCount < TX_MAX_OPERATIONS
      modifies this`currentOperationId, content`operationCount, content.operationIds
      ensures View() == old(View()).(opId := id, opCount := old(View()).opCount + 1,
                                     opIds := Put(old(View()).opIds, old(View()).opCount, id))
    {
      currentOperationId := id;
      var opIdx := content.operationCount;
      content.operationCount := opIdx + 1;
      content.operationIds[opIdx] := id;
      assert content.operationIds[..] == old(content.operationIds[..])[opIdx := id];
    }

    /** Where the payload of the current operation goes. */
    method OpDataOffset() returns (offset: nat)
      requires Separate() && 1 <= content.operationCount <= TX_MAX_OPERATIONS
      ensures offset == Start(View().offsets, content.operationCount - 1)
    {
      var currentOpIdx := content.operationCount - 1;
      offset := if currentOpIdx == 0 then 0 else content.operationOffsets[currentOpIdx - 1];
    }

    /** The payload field is complete, and the next payload starts at `offset`. */
    method FinishPayload(offset: nat)
      requires Separate() && 1 <= content.operationCount <= TX_MAX_OPERATIONS && Payload(state)
      requires offset == Start(View().offsets, content.operationCount - 1) +
        if state == OpSimplePayload then currentFieldLength else 0
      modifies content.operationOffsets, this`state, this`processingField
      ensures Step(Processing, View(), workBuffer) == Complete(old(View()), workBuffer)
    {
      hide Start, Put, StreamSpec.Complete, Payload;
      PayloadCompletes(View(), workBuffer, offset);
      EnterOffset(offset);
      LeavePayload();
    }

    method LeavePayload()
      requires Payload(state)
      modifies this`state, this`processingField
      ensures View() == old(View()).(state := AfterPayload(old(View()).state), processing := false)
    {
      state := Succ(state);
      processingField := false;
    }

    method EnterOffset(offset: nat)
      requires Separate() && 1 <= content.operationCount <= TX_MAX_OPERATIONS
      modifies content.operationOffsets
      ensures View() == old(View()).(offsets := Put(old(View()).offsets, content.operationCount - 1, offset))
    {
      content.operationOffsets[content.operationCount - 1] := offset;
      assert content.operationOffsets[..] == old(content.operationOffsets[..])[content.operationCount - 1 := offset];
    }

    /** A payload either fits, or is refused before anything is read. */
    static lemma PayloadFacts(s: Snapshot, input: seq<byte>)
      requires Valid(s) && s.processing && Payload(s.state)
      ensures 1 <= s.opCount <= TX_MAX_OPERATIONS && Start(s.offsets, s.opCount - 1) <= CACHE_SIZE
      ensures s.state == OpUnsupportedPayload ==> PayloadFits(s)
      ensures s.state == OpSimplePayload ==>
        if Start(s.offsets, s.opCount - 1) + s.fieldLength <= CACHE_SIZE then PayloadFits(s)
        else Dispatch(s, input) == Step(Fault, s, input)
    {
      var i := s.opCount - 1;
      assert i > 0 ==> Start(s.offsets, i - 1) <= s.offsets[i - 1] <= CACHE_SIZE;
    }

    /** A payload that fits is absorbed as far as it is at hand, and completed if that is all of it. */
    static lemma PayloadTurn(s: Snapshot, input: seq<byte>)
      requires Valid(s) && s.processing && Payload(s.state) && PayloadFits(s)
      ensures !ByteFree(s.state) && !Overruns(s, input)
      ensures var t := Absorb(s, input[..Available(s, input)]);
        && t.state == s.state && t.fieldLength == s.fieldLength && t.opCount == s.opCount && t.offsets == s.offsets
        && t.fieldPos <= t.fieldLength
        && Dispatch(s, input) == if t.fieldPos < t.fieldLength then Step(Processing, t, input[Available(s, input)..])
                                 else StreamSpec.Complete(t, input[Available(s, input)..])
    {
      hide Splice, StreamSpec.Complete;
    }

    /** Gather what is at hand of a payload, and enter where it ends if that completes it. */
    method TakePayload(copybuffer: array?<byte>, opDataOffset: nat, end: nat)
      requires Ready() && processingField && Payload(state) && PayloadFits(View())
      requires copybuffer == if state == OpSimplePayload then content.operationDataBuffer else null
      requires opDataOffset == if state == OpSimplePayload then Start(View().offsets, content.operationCount - 1) else 0
      requires end == Start(View().offsets, content.operationCount - 1) +
        if state == OpSimplePayload then currentFieldLength else 0
      modifies Repr
      ensures commandLength == |workBuffer|
      ensures Step(Processing, View(), workBuffer) == Dispatch(old(View()), old(workBuffer))
    {
      hide Valid, Absorb, StreamSpec.Complete, Available, PayloadFits, Dispatch, Start;
      GatherPayload(copybuffer, opDataOffset);
      if currentFieldPos == currentFieldLength {
        FinishPayload(end);
      }
    }

    /** What is at hand of a payload that fits. */
    method GatherPayload(copybuffer: array?<byte>, opDataOffset: nat)
      requires Ready() && processingField && Payload(state) && PayloadFits(View())
      requires copybuffer == if state == OpSimplePayload then content.operationDataBuffer else null
      requires opDataOffset == if state == OpSimplePayload then Start(View().offsets, content.operationCount - 1) else 0
      modifies this, copybuffer
      ensures commandLength == |workBuffer| && state == old(state)
      ensures currentFieldLength == old(currentFieldLength) && currentFieldPos <= currentFieldLength
      ensures 1 <= content.operationCount <= TX_MAX_OPERATIONS
      ensures Dispatch(old(View()), old(workBuffer)) ==
        if currentFieldPos < currentFieldLength then Step(Processing, View(), workBuffer)
        else StreamSpec.Complete(View(), workBuffer)
    {
      hide Valid, Absorb, StreamSpec.Complete, Overruns, Available, PayloadFits, Dispatch, Start;
      PayloadFacts(View(), workBuffer);
      PayloadTurn(View(), workBuffer);
      var _ := Gather(copybuffer, opDataOffset);
    }

    /** `processOperationDataField`: hash the payload and keep it behind the ones already kept. */
    method ProcessOperationDataField() returns (status: Status)
      requires Ready() && processingField && state == OpSimplePayload
      modifies Repr
      ensures commandLength == |workBuffer|
      ensures Step(status, View(), workBuffer) == Dispatch(old(View()), old(workBuffer))
    {
      hide Valid, Dispatch, Start, PayloadFits;
      PayloadFacts(View(), workBuffer);
      var opDataOffset := OpDataOffset();
      var opBufferRemaining := if opDataOffset >= CACHE_SIZE then 0 else CACHE_SIZE - opDataOffset;
      if currentFieldLength > opBufferRemaining {
        return Fault;
      }
      TakePayload(content.operationDataBuffer, opDataOffset, opDataOffset + currentFieldLength);
      return Processing;
    }

    /** `processUnsupportedOperationDataField`: hash the payload, keep nothing of it. */
    method ProcessUnsupportedOperationDataField() returns (status: Status)
      requires Ready() && processingField && state == OpUnsupportedPayload
      modifies Repr
      ensures commandLength == |workBuffer|
      ensures Step(status, View(), workBuffer) == Dispatch(old(View()), old(workBuffer))
    {
      hide Valid, Dispatch, Start, PayloadFits;
      PayloadFacts(View(), workBuffer);
      var opDataOffset := OpDataOffset();
      TakePayload(null, 0, opDataOffset);
      return Processing;
    }

    /** `readTxByte` into tlvBuffer. */
    method PushTxByte()
      requires Separate() && workBuffer != [] && commandLength == |workBuffer| && tlvBufferPos < TLV_BUFFER
      modifies this`tlvBufferPos, this`workBuffer, this`commandLength, tlvBuffer
      ensures View() == PushHeader(old(View()), old(workBuffer)[0])
      ensures workBuffer == old(workBuffer)[1..] && commandLength == |workBuffer|
    {
      tlvBuffer[tlvBufferPos] := workBuffer[0];
      tlvBufferPos := tlvBufferPos + 1;
      workBuffer := workBuffer[1..];
      commandLength := commandLength - 1;
      assert tlvBuffer[..] == old(tlvBuffer[..])[old(tlvBufferPos) := old(workBuffer)[0]];
    }

    static lemma HeaderRoom(s: Snapshot)
      requires Valid(s) && !s.processing
      ensures s.tlvPos < TLV_BUFFER
    {
    }

    /** A header byte: read it, and open the field if it was the last one. */
    method FeedTlvBuffer() returns (status: Status)
      requires Ready() && !processingField && workBuffer != []
      modifies Repr
      ensures commandLength == |workBuffer| && workBuffer == old(workBuffer)[1..]
      ensures View() == ReadHeader(old(View()), old(workBuffer)[0]).snap
      ensures status == if ReadHeader(old(View()), old(workBuffer)[0]).Bad? then Fault else Processing
    {
      hide Valid, Tlv.TryDecode, Splice;
      HeaderRoom(View());
      PushTxByte();
      var decoded, valid;
      decoded, currentFieldLength, valid := Tlv.TlvTryDecode(tlvBuffer, tlvBufferPos, currentFieldLength);
      assert tlvBuffer[..tlvBufferPos] == View().tlv[..View().tlvPos];
      if !valid || (!decoded && tlvBufferPos == TLV_BUFFER) {
        return Fault;
      }
      if decoded {
        currentFieldPos := 0;
        tlvBufferPos := 0;
        processingField := true;
      }
      return Processing;
    }

    /** What is still to come is what the whole call was to give. */
    ghost predicate Leads(target: Step)
      reads Repr
    {
      Ready() && target == if processingField then Turn(View(), workBuffer) else Run(View(), workBuffer)
    }

    /** One round of the header loop: a byte is read, and the field opens if it was the last of the header. */
    method HeaderByte(ghost target: Step) returns (status: Status)
      requires Leads(target) && !processingField && state != Done && workBuffer != []
      modifies Repr
      ensures workBuffer == old(workBuffer)[1..] && commandLength == |workBuffer| && state == old(state)
      ensures status == Fault || status == Processing
      ensures status == Processing ==> Leads(target)
      ensures status == Fault ==> target == Step(Fault, View(), workBuffer)
    {
      hide Run, Turn, Valid, ReadHeader;
      ghost var s, input := View(), workBuffer;
      HeaderValid(s, input[0]);
      HeaderRun(s, input);
      status := FeedTlvBuffer();
    }

    /** The header loop of `processTxInternal`: read bytes until a field is opened or there are no more. */
    method DecodeHeader(ghost target: Step) returns (status: Status)
      requires Leads(target) && !processingField && state != Done && workBuffer != []
      modifies Repr
      ensures commandLength == |workBuffer| && |workBuffer| < old(|workBuffer|)
      ensures status == Processing && processingField ==> Leads(target)
      ensures !(status == Processing && processingField) ==>
        (status == Fault || (status == Processing && Ready())) && target == Step(status, View(), workBuffer)
    {
      hide Run, Turn, Valid;
      while commandLength != 0 && !processingField
        invariant Leads(target) && state != Done && |workBuffer| <= old(|workBuffer|)
        invariant commandLength == 0 || processingField ==> |workBuffer| < old(|workBuffer|)
        decreases commandLength
      {
        status := HeaderByte(target);
        if status == Fault {
          return;
        }
      }
      if !processingField {
        NothingToRead(View());
      }
      return Processing;
    }

    /** The switch of `processTxInternal`. */
    method Switch() returns (status: Status)
      requires Ready() && processingField
      modifies Repr
      ensures commandLength == |workBuffer|
      ensures Step(status, View(), workBuffer) == Dispatch(old(View()), old(workBuffer))
    {
      match state
      case ChainId => status := ProcessChainIdField();
      case Expiration => status := ProcessField();
      case RefBlockNum => status := ProcessField();
      case RefBlockPrefix => status := ProcessField();
      case OperationListSize => status := ProcessOperationListSizeField();
      case OperationCheckRemain =>
        if operationsRemaining > 0 {
          operationsRemaining := operationsRemaining - 1;
          state := OperationId;
        } else {
          state := TxExtensionListSize;
        }
        status := Processing;
      case OperationId => status := ProcessOperationIdField();
      case OpSimplePayload => status := ProcessOperationDataField();
      case OpSimpleDone =>
        state := OperationCheckRemain;
        status := Processing;
      case OpUnsupportedPayload => status := ProcessUnsupportedOperationDataField();
      case OpUnsupportedDone =>
        state := OperationCheckRemain;
        status := Processing;
      case TxExtensionListSize => status := ProcessZeroSizeField();
    }

    /** `processTxInternal`: its loop ends, because every turn reads a byte or comes closer to reading one. */
    method ProcessTxInternal() returns (status: Status)
      requires Ready()
      modifies Repr
      ensures Step(status, View(), workBuffer) == Run(old(View()), old(workBuffer))
      ensures status == Processing || status == Finished ==> Ready()
    {
      ghost var target := Run(View(), workBuffer);
      while true
        invariant Ready() && Run(View(), workBuffer) == target
        decreases |workBuffer|, Rank(View())
      {
        if state == Done {
          return Finished;
        }
        if commandLength == 0 {
          return Processing;
        }
        if !processingField {
          status := DecodeHeader(target);
          if status == Fault || !processingField {
            return;
          }
        }
        ghost var s, input := View(), workBuffer;
        DispatchValid(s, input);
        assert target == Turn(s, input);
        status := Switch();
        if status != Processing {
          return;
        }
      }
    }

    /** `processTxStream` */
    method ProcessTxStream(buffer: seq<byte>) returns (result: Status)
      requires Separate() && Valid(View())
      modifies Repr
      ensures Step(result, View(), workBuffer) == Run(old(View()), buffer)
      ensures result == Processing || result == Finished ==> Ready()
    {
      workBuffer := buffer;
      commandLength := |buffer|;
      result := ProcessTxInternal();
    }
  }
}
