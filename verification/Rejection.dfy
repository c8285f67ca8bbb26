/** A stream that was rejected stays rejected: only a new request gets the machine out of a fault. */
module Rejection {
  import opened Numerals
  import opened Outcomes
  import opened StreamSpec
  import opened StreamChunks
  import opened Tlv
  import Varint

  /** The first two bytes of a header are enough to reject it. */
  predicate BadHeader(h: seq<byte>) {
    h != [] && (h[0] % 32 != 4 || (|h| >= 2 && h[1] > 132))
  }

  /** There is no room for the payload, or the number that was read is not accepted. */
  predicate BadField(s: Snapshot) {
    !ByteFree(s.state) && (!PayloadFits(s) ||
        (s.fieldPos == s.fieldLength && StreamSpec.Complete(s, []).status == Fault))
  }

  /** The header or the field that the machine is at was rejected. */
  ghost predicate Stuck(s: Snapshot) {
    && Valid(s) && s.state != Done
    && if s.processing then BadField(s) else s.tlvPos > 0 && BadHeader(s.tlv[..s.tlvPos])
  }

  lemma RejectedHeader(h: seq<byte>)
    requires h != []
    ensures TryDecode(h) == Invalid <==> BadHeader(h)
  {
  }

  // ---- what a fault leaves ----

  lemma HeaderSticks(s: Snapshot, b: byte)
    requires Valid(s) && !s.processing && s.state != Done && ReadHeader(s, b).Bad?
    ensures Stuck(ReadHeader(s, b).snap) || Full(ReadHeader(s, b).snap)
  {
    hide TryDecode, Valid, BadField;
    HeaderValid(s, b);
    HeaderRoom(s);
    var t := PushHeader(s, b);
    RejectedHeader(t.tlv[..t.tlvPos]);
  }

  lemma HeaderRoom(s: Snapshot)
    requires Valid(s) && !s.processing
    ensures s.tlvPos < TLV_BUFFER == |s.tlv|
  {
  }

  /** Which rest follows a field does not matter for whether it is accepted. */
  lemma AnyRest(s: Snapshot, rest: seq<byte>)
    ensures StreamSpec.Complete(s, rest).status == StreamSpec.Complete(s, []).status
    ensures StreamSpec.Complete(s, rest).snap == StreamSpec.Complete(s, []).snap
  {
    hide Varint.Unpacked32;
  }

  lemma NoOperations()
    ensures Varint.Unpacked32(Zeros(SIZE_BUFFER)) == Ok((0, 1))
  {
  }

  /** A rejected number is rejected again; a rejected operation count has become zero. */
  lemma RejectedAgain(t: Snapshot, rest: seq<byte>)
    requires Valid(t) && t.processing && !ByteFree(t.state) && t.fieldPos == t.fieldLength
    requires StreamSpec.Complete(t, rest).status == Fault
    ensures var u := StreamSpec.Complete(t, rest).snap;
      u.processing && u.state == t.state && u.fieldPos == u.fieldLength && StreamSpec.Complete(u, []).status == Fault
  {
    hide Varint.Unpacked32, Valid;
    KnownState(t);
    NoOperations();
  }

  lemma KnownState(t: Snapshot)
    requires Valid(t) && t.processing
    ensures t.state !in {NoState, OpComplexPayload, OpComplexDone, Done}
  {
  }

  lemma FieldSticks(s: Snapshot, input: seq<byte>)
    requires Valid(s) && s.processing && Dispatch(s, input).status == Fault
    ensures Stuck(Dispatch(s, input).snap)
  {
    hide Valid, Absorb, StreamSpec.Complete, PayloadFits, Overruns;
    DispatchValid(s, input);
    KnownState(s);
    if PayloadFits(s) {
      AtHand(s, input);
      var n := Available(s, input);
      var t := Absorb(s, input[..n]);
      AbsorbValid(s, input[..n]);
      AbsorbFacts(s, input[..n]);
      RejectedAgain(t, input[n..]);
    }
  }

  lemma AbsorbFacts(s: Snapshot, bytes: seq<byte>)
    ensures var t := Absorb(s, bytes);
      && t.processing == s.processing && t.state == s.state && t.fieldPos == s.fieldPos + |bytes|
      && t.fieldLength == s.fieldLength
  {
    hide Splice, Start;
  }

  /** Every fault leaves the machine stuck, or the header buffer full. */
  lemma {:induction false} FaultSticks(s: Snapshot, input: seq<byte>)
    requires Valid(s) && Run(s, input).status == Fault
    ensures Stuck(Run(s, input).snap) || Full(Run(s, input).snap)
    decreases |input|, Rank(s), 1
  {
    hide Valid, Turn, ReadHeader, Stuck, Full;
    assert s.state != Done && input != [];
    if s.processing {
      TurnSticks(s, input);
    } else {
      HeaderValid(s, input[0]);
      match ReadHeader(s, input[0])
      case Bad(t) => HeaderSticks(s, input[0]);
      case More(t) => FaultSticks(t, input[1..]);
      case Opened(t) => TurnSticks(t, input[1..]);
    }
  }

  lemma {:induction false} TurnSticks(s: Snapshot, input: seq<byte>)
    requires Valid(s) && s.processing && Turn(s, input).status == Fault
    ensures Stuck(Turn(s, input).snap) || Full(Turn(s, input).snap)
    decreases |input|, Rank(s), 0
  {
    hide Valid, Turn, Dispatch, Stuck, Full;
    TurnFrom(s, input);
    DispatchValid(s, input);
    var d := Dispatch(s, input);
    if d.status == Fault {
      FieldSticks(s, input);
    } else {
      FaultSticks(d.snap, d.rest);
    }
  }

  // ---- and it stays so ----

  lemma BadHeaderStays(s: Snapshot, b: byte)
    requires Valid(s) && !s.processing && s.tlvPos > 0 && BadHeader(s.tlv[..s.tlvPos])
    ensures ReadHeader(s, b).Bad?
  {
    hide TryDecode;
    var t := PushHeader(s, b);
    assert t.tlv[..t.tlvPos][..s.tlvPos] == s.tlv[..s.tlvPos];
    RejectedHeader(t.tlv[..t.tlvPos]);
  }

  lemma BadFieldStays(s: Snapshot, input: seq<byte>)
    requires Valid(s) && s.processing && BadField(s)
    ensures Dispatch(s, input).status == Fault
  {
    hide Absorb, StreamSpec.Complete, Splice;
    if PayloadFits(s) {
      AbsorbNone(s);
      AnyRest(s, input);
      assert Available(s, input) == 0 && input[..0] == [] && input[0..] == input;
    }
  }

  lemma AbsorbNone(s: Snapshot)
    requires Valid(s) && PayloadFits(s) && s.fieldPos == s.fieldLength
    requires SizeField(s.state) ==> s.fieldPos <= SIZE_BUFFER
    ensures Absorb(s, []) == s
  {
    hide Valid, Splice, Start;
    NothingHashed(s.msgHash);
    NothingHashed(s.txIdHash);
    SpliceNone(s.size, s.fieldPos);
    SpliceNone(s.cache, Start(s.offsets, s.opCount - 1) + s.fieldPos);
  }

  lemma NothingHashed(log: seq<byte>)
    ensures log + [] == log
  {
  }

  lemma SpliceNone(buf: seq<byte>, pos: nat)
    ensures Splice(buf, pos, []) == buf
  {
  }

  /** Whatever is sent to a stream that was rejected is rejected too, and leaves it as hopeless as before. */
  lemma RejectedForGood(s: Snapshot, input: seq<byte>)
    requires Stuck(s) && input != []
    ensures Run(s, input).status == Fault && (Stuck(Run(s, input).snap) || Full(Run(s, input).snap))
  {
    hide Valid, Run, Turn, Dispatch, ReadHeader, BadField, BadHeader;
    if s.processing {
      BadFieldStays(s, input);
      TurnFrom(s, input);
      RunIsTurn(s, input);
    } else {
      BadHeaderStays(s, input[0]);
      HeaderRun(s, input);
    }
    FaultSticks(s, input);
  }

  lemma RunIsTurn(s: Snapshot, input: seq<byte>)
    requires Valid(s) && s.processing && s.state != Done && input != []
    ensures Run(s, input) == Turn(s, input)
  {
    hide Valid, Turn;
  }
}
