/** The machine does not see where one chunk ends and the next begins. */
module StreamChunks {
  import opened Numerals
  import opened StreamSpec

  /** Same status, and the same snapshot and leftover unless the run was aborted. */
  ghost predicate Same(a: Step, b: Step) {
    a.status == b.status && (a.status == Processing || a.status == Finished ==> a == b)
  }

  lemma SpliceTwice(buf: seq<byte>, pos: nat, a: seq<byte>, b: seq<byte>)
    requires pos + |a| + |b| <= |buf|
    ensures Splice(Splice(buf, pos, a), pos + |a|, b) == Splice(buf, pos, a + b)
  {
  }

  lemma AbsorbTwice(s: Snapshot, a: seq<byte>, b: seq<byte>)
    requires SizeField(s.state) ==> s.fieldPos + |a| + |b| <= |s.size|
    requires s.state == OpSimplePayload ==> Start(s.offsets, s.opCount - 1) + s.fieldPos + |a| + |b| <= |s.cache|
    ensures Absorb(Absorb(s, a), b) == Absorb(s, a + b)
  {
    hide Splice, Start;
    AppendTwice(s.msgHash, a, b);
    AppendTwice(s.txIdHash, a, b);
    if SizeField(s.state) {
      SpliceTwice(s.size, s.fieldPos, a, b);
    } else {
      AbsorbOtherTwice(s, a, b);
    }
  }

  lemma AbsorbOtherTwice(s: Snapshot, a: seq<byte>, b: seq<byte>)
    requires !SizeField(s.state)
    requires s.state == OpSimplePayload ==> Start(s.offsets, s.opCount - 1) + s.fieldPos + |a| + |b| <= |s.cache|
    ensures Absorb(Absorb(s, a), b) == Absorb(s, a + b)
  {
    hide Splice, Start;
    AppendTwice(s.msgHash, a, b);
    AppendTwice(s.txIdHash, a, b);
    if s.state == OpSimplePayload {
      SpliceTwice(s.cache, Start(s.offsets, s.opCount - 1) + s.fieldPos, a, b);
    }
  }

  lemma AppendTwice(log: seq<byte>, a: seq<byte>, b: seq<byte>)
    ensures log + a + b == log + (a + b)
  {
  }

  /** The field goes on after the chunk a. */
  ghost predicate Waits(s: Snapshot, a: seq<byte>) {
    !ByteFree(s.state) && PayloadFits(s) && !Overruns(s, a) && s.fieldPos + |a| < s.fieldLength
  }

  /** A turn that wants more bytes than there are takes them all and stops. */
  lemma Starved(s: Snapshot, a: seq<byte>)
    requires Valid(s) && s.processing && Waits(s, a)
    ensures Dispatch(s, a) == Step(Processing, Absorb(s, a), []) && Valid(Absorb(s, a))
  {
    assert a[..|a|] == a && a[|a|..] == [];
    AbsorbValid(s, a);
  }

  lemma AbsorbFrame(s: Snapshot, a: seq<byte>, b: seq<byte>)
    requires Valid(s) && s.processing && Waits(s, a)
    ensures !ByteFree(s.state) && PayloadFits(s)
    ensures var t := Absorb(s, a);
      && Valid(t) && t.processing && !ByteFree(t.state) && PayloadFits(t)
      && Overruns(s, a + b) == Overruns(t, b)
      && Available(s, a + b) == |a| + Available(t, b)
  {
    AbsorbValid(s, a);
  }

  lemma DispatchConsumes(s: Snapshot, input: seq<byte>)
    requires Valid(s) && s.processing && !ByteFree(s.state) && PayloadFits(s)
    ensures Dispatch(s, input)
        == if Overruns(s, input) then Step(Overrun, s, input) else Consume(s, Available(s, input), input)
  {
  }

  /** It is taken up where it stopped. */
  lemma TakenUp(s: Snapshot, a: seq<byte>, b: seq<byte>)
    requires Valid(s) && s.processing && Waits(s, a)
    ensures Valid(Absorb(s, a)) && Absorb(s, a).processing
    ensures Same(Dispatch(s, a + b), Dispatch(Absorb(s, a), b))
  {
    hide Consume;
    hide Absorb, Valid, PayloadFits, Overruns, Available, Waits, ByteFree, Dispatch;
    AbsorbFrame(s, a, b);
    var t := Absorb(s, a);
    DispatchConsumes(s, a + b);
    DispatchConsumes(t, b);
    if !Overruns(t, b) {
      ConsumeTwice(s, a, b);
    }
  }

  lemma ConsumeTwice(s: Snapshot, a: seq<byte>, b: seq<byte>)
    requires Valid(s) && s.processing && Waits(s, a)
    requires Valid(Absorb(s, a)) && !Overruns(s, a + b) && !Overruns(Absorb(s, a), b)
    ensures Consume(s, Available(s, a + b), a + b) == Consume(Absorb(s, a), Available(Absorb(s, a), b), b)
  {
    hide StreamSpec.Complete;
    var n := Available(Absorb(s, a), b);
    assert Available(s, a + b) == |a| + n;
    assert (a + b)[..|a| + n] == a + b[..n];
    assert (a + b)[|a| + n..] == b[n..];
    AbsorbTwice(s, a, b[..n]);
    hide Absorb;
  }

  /** A turn that did not stop for want of bytes does the same when more are waiting. */
  lemma NotStarved(s: Snapshot, a: seq<byte>, b: seq<byte>)
    requires Valid(s) && s.processing
    requires !Waits(s, a)
    ensures Dispatch(s, a + b).status == Dispatch(s, a).status
    ensures Dispatch(s, a).status == Processing ==>
      Dispatch(s, a + b) == Dispatch(s, a).(rest := Dispatch(s, a).rest + b)
  {
    if !ByteFree(s.state) && PayloadFits(s) && !Overruns(s, a) {
      var n := Available(s, a);
      assert Available(s, a + b) == n;
      assert (a + b)[..n] == a[..n];
      assert (a + b)[n..] == a[n..] + b;
    }
  }

  /** `both` is what `first` becomes when the chunk b follows it. */
  ghost predicate Composes(first: Step, b: seq<byte>, both: Step)
    requires first.status == Processing ==> Valid(first.snap)
  {
    match first.status
    case Processing => first.rest == [] && Same(both, Run(first.snap, b))
    case Finished => both == first.(rest := first.rest + b)
    case _ => both.status == first.status
  }

  /**
   * Chunk independence: whatever `a` does before the chunk boundary, feeding `b` afterwards gives what feeding
   * both at once gives; an abort while reading `a` is an abort of both, and after the end nothing is read.
   */
  lemma {:induction false} RunConcat(s: Snapshot, a: seq<byte>, b: seq<byte>)
    requires Valid(s)
    ensures Composes(Run(s, a), b, Run(s, a + b))
    decreases |a|, Rank(s), 1
  {
    if s.state == Done {
    } else if a == [] {
      assert a + b == b;
    } else {
      assert (a + b)[0] == a[0] && (a + b)[1..] == a[1..] + b;
      if s.processing {
        TurnConcat(s, a, b);
      } else {
        HeaderConcat(s, a, b);
      }
    }
  }

  lemma {:induction false} HeaderConcat(s: Snapshot, a: seq<byte>, b: seq<byte>)
    requires Valid(s) && !s.processing && s.state != Done && a != []
    requires (a + b)[0] == a[0] && (a + b)[1..] == a[1..] + b
    ensures Composes(Run(s, a), b, Run(s, a + b))
    decreases |a|, Rank(s), 0
  {
    HeaderValid(s, a[0]);
    match ReadHeader(s, a[0])
    case Bad(t) =>
    case More(t) => RunConcat(t, a[1..], b);
    case Opened(t) => TurnConcat(t, a[1..], b);
  }

  lemma {:induction false} TurnConcat(s: Snapshot, a: seq<byte>, b: seq<byte>)
    requires Valid(s) && s.processing
    ensures Composes(Turn(s, a), b, Turn(s, a + b))
    decreases |a|, Rank(s), 0
  {
    hide Dispatch, Valid, Turn, Waits;
    if Waits(s, a) {
      TurnStarved(s, a, b);
    } else {
      NotStarved(s, a, b);
      DispatchValid(s, a);
      TurnFrom(s, a);
      TurnFrom(s, a + b);
      var d := Dispatch(s, a);
      if d.status == Processing && d.rest != [] {
        RunConcat(d.snap, d.rest, b);
      } else {
        assert d.rest == [] ==> d.rest + b == b;
      }
    }
  }

  lemma TurnStarved(s: Snapshot, a: seq<byte>, b: seq<byte>)
    requires Valid(s) && s.processing && Waits(s, a)
    ensures Composes(Turn(s, a), b, Turn(s, a + b))
  {
    Starved(s, a);
    TakenUp(s, a, b);
    var t := Absorb(s, a);
    assert t.processing && t.state != Done;
    hide Dispatch, Absorb, Waits, Valid;
    TurnFrom(s, a);
    TurnFrom(s, a + b);
    if b == [] {
      assert a + b == a;
    } else {
      TurnFrom(t, b);
    }
  }

  /** What follows a turn. */
  function Onward(d: Step): Step
    requires d.status == Processing ==> Valid(d.snap)
  {
    if d.status != Processing then d
    else if d.rest == [] then Step(if d.snap.state == Done then Finished else Processing, d.snap, [])
    else Run(d.snap, d.rest)
  }

  lemma TurnFrom(s: Snapshot, input: seq<byte>)
    requires Valid(s) && s.processing
    ensures Dispatch(s, input).status == Processing ==> Valid(Dispatch(s, input).snap)
    ensures Turn(s, input) == Onward(Dispatch(s, input))
  {
    hide Dispatch;
    DispatchValid(s, input);
  }

  lemma NothingToRead(s: Snapshot)
    requires Valid(s) && s.state != Done
    ensures Run(s, []) == Step(Processing, s, [])
  {
  }

  lemma HeaderRun(s: Snapshot, input: seq<byte>)
    requires Valid(s) && !s.processing && s.state != Done && input != []
    requires ReadHeader(s, input[0]).More? || ReadHeader(s, input[0]).Opened? ==> Valid(ReadHeader(s, input[0]).snap)
    requires ReadHeader(s, input[0]).Opened? ==> ReadHeader(s, input[0]).snap.processing
    ensures var h := ReadHeader(s, input[0]);
      && (h.Bad? ==> Run(s, input) == Step(Fault, h.snap, input[1..]))
      && (h.More? ==> Run(s, input) == Run(h.snap, input[1..]))
      && (h.Opened? ==> Run(s, input) == Turn(h.snap, input[1..]))
  {
  }

  /** A call on a fresh context. */
  function FromStart(input: seq<byte>): (r: Step)
    ensures r.status == Processing || r.status == Finished ==> Valid(r.snap)
  {
    InitValid();
    Run(Init(), input)
  }

  /** Chunk independence from the start: a prefix that was aborted, finished or is waiting, and what follows it. */
  lemma FromStartConcat(a: seq<byte>, b: seq<byte>)
    ensures Composes(FromStart(a), b, FromStart(a + b))
  {
    hide Run, Valid;
    InitValid();
    RunConcat(Init(), a, b);
  }

  // ---- any number of chunks ----

  function Flat(chunks: seq<seq<byte>>): seq<byte> {
    if chunks == [] then [] else chunks[0] + Flat(chunks[1..])
  }

  /** One call per chunk, until the transaction is complete or rejected. */
  function Feed(s: Snapshot, chunks: seq<seq<byte>>): Step
    requires Valid(s)
    decreases |chunks|
  {
    if chunks == [] then Run(s, []) else
      var r := Run(s, chunks[0]);
      match r.status
      case Processing => Feed(r.snap, chunks[1..])
      case Finished => r.(rest := r.rest + Flat(chunks[1..]))
      case _ => r
  }

  /** The chunks of a whole session, from a fresh context on. */
  function Fed(chunks: seq<seq<byte>>): Step {
    InitValid();
    Feed(Init(), chunks)
  }

  /** Feeding a stream in any chunks is feeding it in one. */
  lemma {:induction false} FeedIsRun(s: Snapshot, chunks: seq<seq<byte>>)
    requires Valid(s)
    ensures Same(Feed(s, chunks), Run(s, Flat(chunks)))
    decreases |chunks|
  {
    hide Valid, Run;
    if chunks != [] {
      RunConcat(s, chunks[0], Flat(chunks[1..]));
      var r := Run(s, chunks[0]);
      if r.status == Processing {
        FeedIsRun(r.snap, chunks[1..]);
      }
    }
  }

  lemma FedIsFromStart(chunks: seq<seq<byte>>)
    ensures Same(Fed(chunks), FromStart(Flat(chunks)))
  {
    hide Valid, Run, Feed;
    InitValid();
    FeedIsRun(Init(), chunks);
  }

  /** Two chunkings of one stream end alike. */
  lemma ChunkingsAgree(s: Snapshot, c: seq<seq<byte>>, d: seq<seq<byte>>)
    requires Valid(s) && Flat(c) == Flat(d)
    ensures Same(Feed(s, c), Feed(s, d))
  {
    FeedIsRun(s, c);
    FeedIsRun(s, d);
  }
}
