/** The machine seen one whole field at a time. */
module StreamFields {
  import opened Numerals
  import opened StreamSpec
  import opened StreamChunks
  import opened Tlv

  datatype Field = Field(header: seq<byte>, value: seq<byte>)

  ghost predicate WellFormed(f: Field) {
    IsHeader(f.header, |f.value|)
  }

  function Bytes(f: Field): seq<byte> {
    f.header + f.value
  }

  /** Between two fields. */
  ghost predicate Boundary(s: Snapshot) {
    Valid(s) && !s.processing && s.tlvPos == 0
  }

  /** The snapshot k bytes into a header. */
  function InHeader(s: Snapshot, h: seq<byte>, k: nat): Snapshot
    requires k <= |h|
  {
    s.(tlv := Splice(s.tlv, 0, h[..k]), tlvPos := k)
  }

  function OpenedBy(s: Snapshot, h: seq<byte>, length: nat): Snapshot {
    OpenField(InHeader(s, h, |h|), length)
  }

  /** The byte-free moves, all of them. */
  function Settle(s: Snapshot): Snapshot {
    var t := if s.state == OpSimpleDone || s.state == OpUnsupportedDone then Move(s) else s;
    if t.state == OperationCheckRemain then Move(t) else t
  }

  /** A whole field at once. */
  function TakeField(s: Snapshot, f: Field): Step {
    Dispatch(Settle(OpenedBy(s, f.header, |f.value|)), f.value)
  }

  // ---- the header ----

  lemma InHeaderStep(s: Snapshot, h: seq<byte>, k: nat)
    requires Boundary(s) && |h| <= TLV_BUFFER && k < |h|
    ensures PushHeader(InHeader(s, h, k), h[k]) == InHeader(s, h, k + 1)
    ensures InHeader(s, h, k + 1).tlv[..k + 1] == h[..k + 1]
    ensures Valid(InHeader(s, h, k)) && !InHeader(s, h, k).processing
  {
    assert h[..k] + [h[k]] == h[..k + 1];
    SpliceTwice(s.tlv, 0, h[..k], [h[k]]);
  }

  lemma InHeaderValid(s: Snapshot, h: seq<byte>, length: nat)
    requires Boundary(s) && s.state != Done && |h| <= TLV_BUFFER && length < 0x1_0000_0000
    ensures Valid(OpenedBy(s, h, length)) && OpenedBy(s, h, length).processing
  {
  }

  /** Header bytes up to the last are awaited, the last one opens the field. */
  lemma ReadsHeader(s: Snapshot, h: seq<byte>, length: nat, k: nat)
    requires Boundary(s) && IsHeader(h, length) && k < |h|
    ensures ReadHeader(InHeader(s, h, k), h[k]) ==
      if k + 1 < |h| then More(InHeader(s, h, k + 1)) else HeaderStep.Opened(OpenedBy(s, h, length))
    ensures Valid(InHeader(s, h, k)) && !InHeader(s, h, k).processing && InHeader(s, h, k).state == s.state
  {
    hide TryDecode;
    InHeaderStep(s, h, k);
    assert k + 1 == |h| ==> h[..k + 1] == h;
  }

  lemma HeaderFits(h: seq<byte>, length: nat)
    requires IsHeader(h, length)
    ensures |h| <= TLV_BUFFER
  {
  }

  lemma {:induction false} RunHeader(s: Snapshot, h: seq<byte>, length: nat, k: nat, rest: seq<byte>)
    requires Boundary(s) && s.state != Done && IsHeader(h, length) && k < |h| && length < 0x1_0000_0000
    ensures Valid(InHeader(s, h, k)) && Valid(OpenedBy(s, h, length)) && OpenedBy(s, h, length).processing
    ensures Run(InHeader(s, h, k), h[k..] + rest) == Turn(OpenedBy(s, h, length), rest)
    decreases |h| - k
  {
    hide Valid, Run, Turn, ReadHeader, IsHeader, InHeader, OpenedBy;
    HeaderFits(h, length);
    ReadsHeader(s, h, length, k);
    InHeaderValid(s, h, length);
    var t, input := InHeader(s, h, k), h[k..] + rest;
    assert input[0] == h[k] && input[1..] == h[k + 1..] + rest;
    HeaderValid(t, h[k]);
    HeaderRun(t, input);
    if k + 1 < |h| {
      RunHeader(s, h, length, k + 1, rest);
    } else {
      assert h[k + 1..] + rest == rest;
    }
  }

  // ---- the value ----

  lemma SettleValid(s: Snapshot)
    requires Valid(s) && s.processing && s.fieldPos == 0
    ensures Valid(Settle(s)) && Settle(s).processing && !ByteFree(Settle(s).state)
    ensures Settle(s).fieldPos == 0 && Settle(s).fieldLength == s.fieldLength
    ensures !ByteFree(s.state) ==> Settle(s) == s
  {
    hide Valid, Move;
    if ByteFree(s.state) {
      MoveValid(s);
      if s.state != OperationCheckRemain {
        MoveValid(Move(s));
      }
    }
  }

  lemma MoveOn(s: Snapshot, input: seq<byte>)
    requires Valid(s) && s.processing && ByteFree(s.state) && input != []
    ensures Valid(Move(s)) && Move(s).processing && Turn(s, input) == Turn(Move(s), input)
  {
    hide Dispatch, Turn, Valid, Move;
    MoveValid(s);
    TurnFrom(s, input);
    DispatchMoves(s, input);
    MovedTurn(s, input);
  }

  lemma DispatchMoves(s: Snapshot, input: seq<byte>)
    requires ByteFree(s.state)
    ensures Dispatch(s, input) == Step(Processing, Move(s), input)
  {
  }

  lemma MovedTurn(s: Snapshot, input: seq<byte>)
    requires Valid(s) && s.processing && ByteFree(s.state) && input != []
    requires Valid(Move(s)) && Move(s).processing && Move(s).state != Done
    ensures Run(Move(s), input) == Turn(Move(s), input)
  {
    hide Turn, Valid, Move;
  }

  /** The byte-free moves happen as soon as something is left to read. */
  lemma TurnSettles(s: Snapshot, input: seq<byte>)
    requires Valid(s) && s.processing && s.fieldPos == 0
    requires input != [] || !ByteFree(s.state)
    ensures Valid(Settle(s)) && Settle(s).processing
    ensures Turn(s, input) == Turn(Settle(s), input)
  {
    hide Turn, Dispatch, Valid;
    SettleValid(s);
    if ByteFree(s.state) {
      MoveOn(s, input);
      if s.state != OperationCheckRemain {
        MoveOn(Move(s), input);
      }
    }
  }

  lemma DispatchesWhole(s: Snapshot, value: seq<byte>)
    requires Valid(s) && s.processing && s.fieldPos == 0 && s.fieldLength == |value| && !ByteFree(s.state)
    requires Dispatch(s, value).status == Processing
    ensures Boundary(Dispatch(s, value).snap) && Dispatch(s, value).rest == []
  {
    ConsumeValid(s, |value|, value);
    assert Dispatch(s, value) == Consume(s, |value|, value);
  }

  /** With the whole value at hand, a turn takes exactly the value. */
  lemma TurnTakesValue(s: Snapshot, value: seq<byte>, rest: seq<byte>)
    requires Valid(s) && s.processing && s.fieldPos == 0 && s.fieldLength == |value| && !ByteFree(s.state)
    ensures Dispatch(s, value).status != Finished
    ensures Dispatch(s, value).status == Processing ==>
        Boundary(Dispatch(s, value).snap) && Dispatch(s, value).rest == []
    ensures Dispatch(s, value).status == Processing ==> Turn(s, value + rest) == Run(Dispatch(s, value).snap, rest)
    ensures Dispatch(s, value).status != Processing ==> Turn(s, value + rest).status == Dispatch(s, value).status
  {
    hide Dispatch, Turn, Run, Waits, Valid;
    NoWait(s, value);
    NotStarved(s, value, rest);
    TurnFrom(s, value + rest);
    DispatchValid(s, value);
    if Dispatch(s, value).status == Processing {
      DispatchesWhole(s, value);
      assert [] + rest == rest;
      NothingLeft(Dispatch(s, value).snap);
    }
  }

  lemma NothingLeft(s: Snapshot)
    requires Valid(s)
    ensures Run(s, []) == Step(if s.state == Done then Finished else Processing, s, [])
  {
    hide Valid;
  }

  lemma NoWait(s: Snapshot, value: seq<byte>)
    requires s.fieldPos == 0 && s.fieldLength == |value|
    ensures !Waits(s, value)
  {
  }

  lemma InHeaderNone(s: Snapshot, h: seq<byte>)
    requires s.tlvPos == 0
    ensures InHeader(s, h, 0) == s
  {
    assert h[..0] == [] && Splice(s.tlv, 0, []) == s.tlv;
  }

  lemma OpenedFacts(s: Snapshot, h: seq<byte>, n: nat)
    ensures var u := OpenedBy(s, h, n); u.state == s.state && u.fieldPos == 0 && u.fieldLength == n
  {
  }

  /** The field's last byte is enough to complete it, unless a byte-free move is still waiting for one more. */
  ghost predicate Closes(s: Snapshot, f: Field, rest: seq<byte>) {
    f.value != [] || rest != [] || !ByteFree(s.state)
  }

  /** Reading a stream that starts with a whole field is taking the field, then reading what follows it. */
  lemma RunField(s: Snapshot, f: Field, rest: seq<byte>)
    requires Boundary(s) && s.state != Done && WellFormed(f) && Closes(s, f, rest)
    ensures TakeField(s, f).status != Finished
    ensures TakeField(s, f).status == Processing ==> Boundary(TakeField(s, f).snap) && TakeField(s, f).rest == []
    ensures TakeField(s, f).status == Processing ==> Run(s, Bytes(f) + rest) == Run(TakeField(s, f).snap, rest)
    ensures TakeField(s, f).status != Processing ==> Run(s, Bytes(f) + rest).status == TakeField(s, f).status
  {
    hide Run, Turn, Dispatch, Valid, Settle, OpenedBy, TryDecode, InHeader;
    var h, input := f.header, f.value + rest;
    DecodedLength(h);
    RunHeader(s, h, |f.value|, 0, input);
    InHeaderNone(s, h);
    var u := OpenedBy(s, h, |f.value|);
    OpenedFacts(s, h, |f.value|);
    assert h[0..] + input == Bytes(f) + rest;
    SettleValid(u);
    TurnSettles(u, input);
    TurnTakesValue(Settle(u), f.value, rest);
  }

  // ---- any number of fields ----

  function FlatFields(fs: seq<Field>): seq<byte> {
    if fs == [] then [] else Bytes(fs[0]) + FlatFields(fs[1..])
  }

  function Values(fs: seq<Field>): seq<seq<byte>> {
    seq(|fs|, k requires 0 <= k < |fs| => fs[k].value)
  }

  ghost predicate AllWellFormed(fs: seq<Field>) {
    forall k :: 0 <= k < |fs| ==> WellFormed(fs[k])
  }

  // ---- a call that gets past a field has read it whole ----

  /** A call that began at s, where a field was due, ended beyond that field. */
  predicate GetsPast(s: Snapshot, r: Step) {
    r.status == Finished || (r.status == Processing && !ByteFree(s.state) && r.snap.state != s.state)
  }

  /** The bytes of a header that is still incomplete, and was so all along. */
  ghost predicate Scanned(h: seq<byte>) {
    |h| < TLV_BUFFER && forall k :: 1 <= k <= |h| ==> TryDecode(h[..k]) == Incomplete
  }

  lemma ScannedStep(h: seq<byte>, b: byte)
    requires Scanned(h)
    ensures TryDecode(h + [b]) == Incomplete && |h| + 1 < TLV_BUFFER ==> Scanned(h + [b])
    ensures TryDecode(h + [b]).Complete? ==> IsHeader(h + [b], TryDecode(h + [b]).length)
  {
    var h' := h + [b];
    assert h'[..|h'|] == h';
    forall k | 1 <= k <= |h| ensures TryDecode(h'[..k]) == Incomplete {
      assert h'[..k] == h[..k];
    }
    assert h == [] ==> !TryDecode(h').Complete?;
    hide TryDecode;
  }

  /** What reading one more header byte does, in terms of the header alone. */
  lemma ReadIs(s: Snapshot, h: seq<byte>, b: byte)
    requires Boundary(s) && |h| < TLV_BUFFER
    ensures var h' := h + [b];
      var t := InHeader(s, h', |h'|);
      ReadHeader(InHeader(s, h, |h|), b) == match TryDecode(h')
        case Invalid => Bad(t)
        case Incomplete => if |h'| == TLV_BUFFER then Bad(t) else More(t)
        case Complete(n) => HeaderStep.Opened(OpenField(t, n))
  {
    hide TryDecode;
    var h' := h + [b];
    assert h'[..|h|] == h && h'[..|h'|] == h';
    InHeaderStep(s, h', |h|);
    assert InHeader(s, h, |h|) == InHeader(s, h', |h|) by { assert h[..|h|] == h; }
  }

  /** Such a call, or one that would leave sizeBuffer: it got into a field. */
  predicate GetsInto(s: Snapshot, r: Step) {
    GetsPast(s, r) || r.status == Overrun
  }

  /** A call that gets into the field due at a boundary starts by reading a header that opens it. */
  lemma {:induction false} PassedHeader(s: Snapshot, h: seq<byte>, input: seq<byte>) returns (header: seq<byte>,
                                        length: nat)
    requires Boundary(s) && s.state != Done && Scanned(h)
    requires Valid(InHeader(s, h, |h|)) && GetsInto(s, Run(InHeader(s, h, |h|), input))
    ensures IsHeader(header, length) && header <= h + input
    decreases |input|
  {
    hide Valid, Run, IsHeader, Scanned, InHeader, TryDecode, Boundary, GetsInto;
    PassesByte(s, h, input);
    var h' := h + [input[0]];
    if TryDecode(h').Complete? {
      header, length := h', TryDecode(h').length;
    } else {
      assert h' + input[1..] == h + input;
      header, length := PassedHeader(s, h', input[1..]);
    }
  }

  /** The next byte of a header either opens the field or leaves the call where it can still get into it. */
  lemma PassesByte(s: Snapshot, h: seq<byte>, input: seq<byte>)
    requires Boundary(s) && s.state != Done && Scanned(h)
    requires Valid(InHeader(s, h, |h|)) && GetsInto(s, Run(InHeader(s, h, |h|), input))
    ensures input != []
    ensures var h' := h + [input[0]];
      if TryDecode(h').Complete? then IsHeader(h', TryDecode(h').length)
      else Scanned(h') && Valid(InHeader(s, h', |h'|)) && GetsInto(s, Run(InHeader(s, h', |h'|), input[1..]))
  {
    hide Valid, Run, Turn, ReadHeader, IsHeader, TryDecode, Splice;
    var t := InHeader(s, h, |h|);
    if input == [] {
      NothingToRead(t);
    } else {
      HeaderValid(t, input[0]);
      HeaderRun(t, input);
      ReadIs(s, h, input[0]);
      ScannedStep(h, input[0]);
    }
  }

  /** A call that ends inside a field does not get past it. */
  lemma TooShort(s: Snapshot, input: seq<byte>)
    requires Valid(s) && s.processing && s.fieldPos == 0
    requires |input| < s.fieldLength || (input == [] && ByteFree(s.state))
    ensures !GetsPast(s, Turn(s, input))
    ensures input == [] && ByteFree(s.state) ==> Turn(s, input).status == Processing
  {
    hide Turn, Dispatch, Valid, Settle, Move;
    if input == [] && ByteFree(s.state) {
      TurnFrom(s, input);
      DispatchMoves(s, input);
      MoveValid(s);
    } else {
      SettleValid(s);
      TurnSettles(s, input);
      StopsShort(Settle(s), input);
    }
  }

  lemma StopsShort(s: Snapshot, input: seq<byte>)
    requires Valid(s) && s.processing && s.fieldPos == 0 && !ByteFree(s.state)
    requires |input| < s.fieldLength
    ensures Turn(s, input).status != Finished
    ensures Turn(s, input).status == Processing ==> Turn(s, input).snap.state == s.state
    ensures Turn(s, input).status == Overrun ==> Overruns(s, input)
  {
    hide Turn, Valid, Dispatch, Absorb, Waits, Overruns;
    TurnFrom(s, input);
    if Waits(s, input) {
      Starved(s, input);
      AbsorbKeepsState(s, input);
    } else {
      NoRoom(s, input);
      OverrunsOnly(s, input);
    }
  }

  /** A turn only leaves sizeBuffer where it would be copied past its end. */
  lemma OverrunsOnly(s: Snapshot, input: seq<byte>)
    requires Valid(s) && s.processing
    ensures Dispatch(s, input).status == Overrun <==> !ByteFree(s.state) && PayloadFits(s) && Overruns(s, input)
  {
    hide Absorb;
  }

  lemma AbsorbKeepsState(s: Snapshot, bytes: seq<byte>)
    requires !ByteFree(s.state) && Valid(s) && s.processing
    ensures Absorb(s, bytes).state == s.state != Done
  {
  }

  /** A field that is not complete and does not wait for more has no room. */
  lemma NoRoom(s: Snapshot, input: seq<byte>)
    requires s.fieldPos == 0 && |input| < s.fieldLength && !ByteFree(s.state) && !Waits(s, input)
    ensures Dispatch(s, input).status == Fault || Dispatch(s, input).status == Overrun
  {
  }

  lemma PassedOpens(s: Snapshot, input: seq<byte>) returns (h: seq<byte>, n: nat)
    requires Boundary(s) && s.state != Done && GetsInto(s, Run(s, input))
    ensures IsHeader(h, n) && h <= input && n < 0x1_0000_0000
    ensures Valid(OpenedBy(s, h, n)) && OpenedBy(s, h, n).processing
    ensures Run(s, input) == Turn(OpenedBy(s, h, n), input[|h|..])
  {
    hide Valid, Run, Turn;
    InHeaderNone(s, []);
    h, n := PassedHeader(s, [], input);
    DecodedLength(h);
    assert h <= input by { assert [] + input == input; }
    InHeaderNone(s, h);
    hide InHeader, OpenedBy, IsHeader;
    RunHeader(s, h, n, 0, input[|h|..]);
    assert h[0..] + input[|h|..] == input;
  }

  /** A call that gets past the field due at a boundary starts by taking it whole. */
  lemma PassedField(s: Snapshot, input: seq<byte>) returns (f: Field, rest: seq<byte>)
    requires Boundary(s) && s.state != Done && GetsPast(s, Run(s, input))
    ensures input == Bytes(f) + rest && WellFormed(f) && Closes(s, f, rest) && |rest| < |input|
    ensures TakeField(s, f).status == Processing && Boundary(TakeField(s, f).snap)
    ensures Run(s, input) == Run(TakeField(s, f).snap, rest)
  {
    hide OpenedBy;
    hide Valid, Run, Turn, TakeField;
    var h, n := PassedOpens(s, input);
    var tail := input[|h|..];
    OpenedFacts(s, h, n);
    if |tail| < n || (tail == [] && ByteFree(s.state)) {
      TooShort(OpenedBy(s, h, n), tail);
      assert false;
    }
    f, rest := Field(h, tail[..n]), tail[n..];
    assert Bytes(f) + rest == input;
    RunField(s, f, rest);
  }
}
