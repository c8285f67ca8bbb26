/**
 * What may arrive while a transaction is under review. The display reads the content that the stream machine writes,
 * so the question is which blocks leave that content, and the hash that a confirmation would sign, in step with each
 * other.
 */
module LiveReview {
  import opened Numerals
  import opened Outcomes
  import opened Codec
  import opened ParseOperations
  import opened Screens
  import opened ScreenCycle
  import opened StreamSpec
  import opened StreamChunks
  import opened StreamMachine
  import opened Rejection
  import opened Restarts
  import opened Signing
  import opened StreamReview
  import ScreenMachine
  import KeyText

  /** The live stream, and the message hash as the bytes it is the digest of. */
  datatype Live = Live(stream: Snapshot, hash: seq<byte>)

  /** What is shown is a finished transaction, and it is the one that a confirmation would sign. */
  ghost predicate UnderReview(l: Live) {
    Valid(l.stream) && l.stream.state == Done && l.hash == l.stream.msgHash
  }

  /** A chunk is read from s; None where a buffer is overrun, of which nothing is said. */
  ghost function Read(l: Live, s: Snapshot, input: seq<byte>): Option<Live>
    requires Valid(s)
  {
    var r := Run(s, input);
    match r.status
    case Overrun => None
    case Finished => Some(Live(r.snap, r.snap.msgHash))
    case _ => Some(l.(stream := r.snap))
  }

  /** A block holds the path it announces. */
  predicate HoldsPath(b: Block) {
    b.p1 == 0x00 ==> b.data != [] && (Opens(b) ==> |b.data| >= 1 + 4 * b.data[0])
  }

  /** The chunk behind the path of a first block. */
  function FirstChunk(b: Block): seq<byte> {
    if b.data == [] then [] else
      var n: nat := b.data[0];
      if |b.data| >= 1 + 4 * n then b.data[1 + 4 * n..] else []
  }

  /** `handleSign` on the live state; None where the source is undefined. */
  ghost function Served(l: Live, b: Block): Option<Live> {
    InitValid();
    if !HoldsPath(b) then None
    else if Opens(b) then
      if b.p2 != 0 then Some(l.(stream := Init())) else Read(l, Init(), FirstChunk(b))
    else if b.p1 != 0x80 || b.p2 != 0 || l.stream.state == NoState then Some(l)
    else if !Valid(l.stream) then None
    else Read(l, l.stream, b.data)
  }

  ghost function ServedAll(l: Live, blocks: seq<Block>): Option<Live>
    decreases |blocks|
  {
    if blocks == [] then Some(l) else
      var m :- Served(l, blocks[0]);
      ServedAll(m, blocks[1..])
  }

  // ---- the machine ----

  ghost function LiveOf(device: Device): Live
    reads device, device.context.Repr
  {
    Live(device.context.View(), device.hash)
  }

  /** Any blocks whatever, as long as the source says what they do. */
  method Serve(device: Device, blocks: seq<Block>) returns (replies: seq<Reply>)
    requires device.Apart() && ServedAll(LiveOf(device), blocks).Some?
    modifies device.Repr
    ensures |replies| == |blocks| && LiveOf(device) == ServedAll(old(LiveOf(device)), blocks).value
    decreases |blocks|
  {
    hide Served;
    if blocks == [] {
      return [];
    }
    var reply := ServeBlock(device, blocks[0]);
    var others := Serve(device, blocks[1..]);
    replies := [reply] + others;
  }

  method ServeBlock(device: Device, b: Block) returns (reply: Reply)
    requires device.Apart() && Served(LiveOf(device), b).Some?
    modifies device.Repr
    ensures LiveOf(device) == Served(old(LiveOf(device)), b).value
    ensures !Opens(b) ==> device.bip32Path[..] == old(device.bip32Path[..])
    ensures device.pathLength == if b.p1 == 0x00 && b.data != [] then b.data[0] else old(device.pathLength)
  {
    hide Run, Valid, Words;
    reply := device.HandleSign(b.p1, b.p2, b.data);
  }

  // ---- blocks that do not open a request ----

  lemma DoneStays(l: Live, b: Block)
    requires UnderReview(l) && !Opens(b) && HoldsPath(b)
    ensures Served(l, b) == Some(l)
  {
    hide Valid;
  }

  /** Nothing but a new request disturbs what is under review: neither the content nor the hash. */
  lemma {:induction false} ReviewStays(l: Live, blocks: seq<Block>)
    requires UnderReview(l) && forall b <- blocks :: !Opens(b) && HoldsPath(b)
    ensures ServedAll(l, blocks) == Some(l)
    decreases |blocks|
  {
    hide Served, UnderReview, Opens, HoldsPath;
    if blocks != [] {
      DoneStays(l, blocks[0]);
      ReviewStays(l, blocks[1..]);
    }
  }

  // ---- blocks that do ----

  /** The last block that opens a request, and the blocks behind it. */
  function Request(blocks: seq<Block>): Option<seq<Block>> {
    if blocks == [] then None else
      match Request(blocks[1..])
      case Some(r) => Some(r)
      case None => if Opens(blocks[0]) then Some(blocks) else None
  }

  /** The stream of a request, in its chunks. */
  function StreamOf(r: seq<Block>): seq<seq<byte>> {
    if r == [] then [] else (if r[0].p2 == 0 then [FirstChunk(r[0])] else []) + ChunksOf(r[1..])
  }

  /** A finished stream is a valid one, and its hash has been taken. */
  ghost predicate Settled(l: Live) {
    l.stream.state == Done ==> UnderReview(l)
  }

  /** The machine has rejected the stream. */
  ghost predicate Rejected(s: Snapshot) {
    (Stuck(s) || Full(s)) && s.state != Done
  }

  /** A stream that was rejected does not finish until a request is opened. */
  lemma {:induction false} RejectedStays(l: Live, blocks: seq<Block>)
    requires Rejected(l.stream) && (forall b <- blocks :: !Opens(b)) && ServedAll(l, blocks).Some?
    ensures ServedAll(l, blocks).value.stream.state != Done
    decreases |blocks|
  {
    hide Served, Stuck, Full, Opens;
    if blocks != [] {
      RejectedBlock(l, blocks[0]);
      RejectedStays(Served(l, blocks[0]).value, blocks[1..]);
    }
  }

  lemma RejectedBlock(l: Live, b: Block)
    requires Rejected(l.stream) && !Opens(b) && Served(l, b).Some?
    ensures Rejected(Served(l, b).value.stream)
  {
    hide Valid, BadField, BadHeader, Run;
    if b.p1 == 0x80 && b.p2 == 0 && l.stream.state != NoState {
      StuckIfValid(l.stream);
      if b.data == [] {
        NothingToRead(l.stream);
      } else {
        RejectedForGood(l.stream, b.data);
      }
    }
  }

  lemma StuckIfValid(s: Snapshot)
    requires Valid(s) && Rejected(s)
    ensures Stuck(s)
  {
  }

  /** Blocks that open no request finish the stream if and only if their chunks do. */
  lemma {:induction false} ChunksServed(l: Live, blocks: seq<Block>)
    requires Valid(l.stream) && Settled(l) && (forall b <- blocks :: !Opens(b)) && ServedAll(l, blocks).Some?
    ensures var m := ServedAll(l, blocks).value;
      Settled(m) && (m.stream.state == Done <==> Feed(l.stream, ChunksOf(blocks)).status == Finished)
    decreases |blocks|
  {
    hide Served, Feed, Valid, Opens, UnderReview, Rejected;
    if blocks == [] {
      FeedsNothing(l.stream);
    } else {
      var m := Served(l, blocks[0]).value;
      var rejected := BlockServed(l, blocks[0], ChunksOf(blocks[1..]));
      if rejected {
        RejectedStays(m, blocks[1..]);
      } else {
        ChunksServed(m, blocks[1..]);
      }
    }
  }

  lemma FeedsNothing(s: Snapshot)
    requires Valid(s)
    ensures Feed(s, []).status == Finished <==> s.state == Done
  {
    hide Valid;
  }

  /** One block: the stream goes on as the chunks do, or it is rejected. */
  lemma BlockServed(l: Live, b: Block, later: seq<seq<byte>>) returns (rejected: bool)
    requires Valid(l.stream) && Settled(l) && !Opens(b) && Served(l, b).Some?
    ensures var m := Served(l, b).value;
      && (rejected ==> Rejected(m.stream) && Feed(l.stream, ChunkOf(b) + later).status != Finished)
      && (!rejected ==> Valid(m.stream) && Settled(m))
      && (!rejected ==>
            (Feed(l.stream, ChunkOf(b) + later).status == Finished <==> Feed(m.stream, later).status == Finished))
  {
    hide Valid, Run, Feed, Stuck, Full;
    rejected := false;
    NotUnopened(l.stream);
    if b.p1 == 0x80 && b.p2 == 0 {
      FeedsOn(l.stream, b.data, later);
      rejected := Run(l.stream, b.data).status == Fault;
      if rejected {
        FaultSticks(l.stream, b.data);
        StuckNotDone(Run(l.stream, b.data).snap);
      }
    } else {
      assert ChunkOf(b) + later == later;
    }
  }

  lemma StuckNotDone(s: Snapshot)
    requires Stuck(s) || Full(s)
    ensures s.state != Done
  {
    hide Valid;
  }

  /** Feeding one chunk and then others, with whatever the first does. */
  lemma FeedsOn(s: Snapshot, chunk: seq<byte>, others: seq<seq<byte>>)
    requires Valid(s)
    ensures var r := Run(s, chunk);
      && (Going(r.status) ==> Valid(r.snap))
      && (Going(r.status) ==>
            (Feed(s, [chunk] + others).status == Finished <==> Feed(r.snap, others).status == Finished))
      && (!Going(r.status) ==> Feed(s, [chunk] + others).status != Finished)
      && (r.snap.state == Done && Going(r.status) ==> r.status == Finished)
  {
    hide Valid, Run;
    assert ([chunk] + others)[1..] == others;
    if Run(s, chunk).status == Finished {
      FeedDone(Run(s, chunk).snap, others);
    }
  }

  /** After blocks of which some open a request, the last of these decides. */
  lemma {:induction false} LastRequest(l: Live, blocks: seq<Block>)
    requires Settled(l) && ServedAll(l, blocks).Some? && Request(blocks).Some?
    ensures var m := ServedAll(l, blocks).value;
      Settled(m) && (m.stream.state == Done <==> Fed(StreamOf(Request(blocks).value)).status == Finished)
    decreases |blocks|
  {
    hide Served, Fed, Opens, UnderReview, StreamOf;
    var m := Served(l, blocks[0]).value;
    if Request(blocks[1..]).Some? {
      StaysSettled(l, blocks[0]);
      LastRequest(m, blocks[1..]);
    } else {
      NoRequest(blocks[1..]);
      Opened(l, blocks);
    }
  }

  lemma {:induction false} NoRequest(blocks: seq<Block>)
    requires Request(blocks).None?
    ensures forall b <- blocks :: !Opens(b)
  {
    hide Opens;
    if blocks != [] {
      NoRequest(blocks[1..]);
      assert blocks == [blocks[0]] + blocks[1..];
    }
  }

  lemma StaysSettled(l: Live, b: Block)
    requires Settled(l) && Served(l, b).Some?
    ensures Settled(Served(l, b).value)
  {
    hide Valid, Run;
    InitValid();
    ReadSettled(l, Init(), FirstChunk(b));
    if Valid(l.stream) {
      ReadSettled(l, l.stream, b.data);
    }
  }

  lemma ReadSettled(l: Live, s: Snapshot, input: seq<byte>)
    requires Valid(s)
    ensures Read(l, s, input).Some? ==> Settled(Read(l, s, input).value)
  {
    hide Valid;
    if Run(s, input).status == Fault {
      FaultSticks(s, input);
      StuckNotDone(Run(s, input).snap);
    }
  }

  /** A request, from the block that opens it on. */
  lemma Opened(l: Live, blocks: seq<Block>)
    requires blocks != [] && Opens(blocks[0]) && (forall b <- blocks[1..] :: !Opens(b)) && ServedAll(l, blocks).Some?
    ensures var m := ServedAll(l, blocks).value;
      Settled(m) && (m.stream.state == Done <==> Fed(StreamOf(blocks)).status == Finished)
  {
    hide Feed, Valid, Run, ServedAll, UnderReview, ChunksOf;
    InitValid();
    var anew, tail := l.(stream := Init()), blocks[1..];
    assert blocks == [blocks[0]] + tail;
    ServedStep(l, blocks[0], tail);
    if blocks[0].p2 == 0 {
      var first := Block(0x80, 0, FirstChunk(blocks[0]));
      assert Served(anew, first) == Served(l, blocks[0]);
      ServedStep(anew, first, tail);
      ChunksStep(first, tail);
      ChunksServed(anew, [first] + tail);
    } else {
      assert StreamOf(blocks) == ChunksOf(tail);
      ChunksServed(anew, tail);
    }
  }

  lemma ServedStep(l: Live, b: Block, later: seq<Block>)
    ensures ServedAll(l, [b] + later) == if Served(l, b).None? then None else ServedAll(Served(l, b).value, later)
  {
    hide Served;
  }

  lemma ChunksStep(b: Block, later: seq<Block>)
    ensures ChunksOf([b] + later) == ChunkOf(b) + ChunksOf(later)
  {
  }

  /**
   * Whatever blocks arrive while a transaction is under review: what is shown afterwards is the transaction that a
   * confirmation would sign if and only if no request was opened, or the last one that was has finished. If none was,
   * it is the same transaction still.
   */
  lemma ReviewHoldsExactly(l: Live, blocks: seq<Block>)
    requires UnderReview(l) && ServedAll(l, blocks).Some?
    ensures var m := ServedAll(l, blocks).value;
      && (UnderReview(m) <==>
            Request(blocks).None? || Fed(StreamOf(Request(blocks).value)).status == Finished)
      && (Request(blocks).None? ==> m == l)
  {
    hide Fed, Valid, StreamOf, Request, Opens;
    if Request(blocks).Some? {
      LastRequest(l, blocks);
    } else {
      NoRequest(blocks);
      AllHold(l, blocks);
      ReviewStays(l, blocks);
    }
  }

  lemma {:induction false} AllHold(l: Live, blocks: seq<Block>)
    requires ServedAll(l, blocks).Some?
    ensures forall b <- blocks :: HoldsPath(b)
    decreases |blocks|
  {
    hide Valid, Run;
    if blocks != [] {
      AllHold(Served(l, blocks[0]).value, blocks[1..]);
      assert blocks == [blocks[0]] + blocks[1..];
    }
  }

  /** A request that is opened with a path of one element, and no chunk behind it. */
  const OPENING := Block(0x00, 0, [1, 0, 0, 0, 0])

  /**
   * The input that shows the difference: during a review this block takes away everything that is shown, and leaves
   * the hash of what was shown before for a confirmation to sign.
   */
  lemma OpenedUnderReview(l: Live, beyond: Memory, sha: Sha256, ripemd: KeyText.Ripemd160)
    requires UnderReview(l)
    ensures Served(l, OPENING) == Some(l.(stream := Init())) && !UnderReview(l.(stream := Init()))
    ensures ContentOf(Init(), beyond, sha, ripemd).ids == [] != ContentOf(l.stream, beyond, sha, ripemd).ids
  {
    hide Run;
    InitValid();
    NothingToRead(Init());
    assert FirstChunk(OPENING) == [];
  }

  // ---- blocks and ticks ----

  datatype Event = Arrives(block: Block) | Tick

  function Ticks(events: seq<Event>): nat {
    if events == [] then 0 else Ticks(events[..|events| - 1]) + if events[|events| - 1].Tick? then 1 else 0
  }

  /** A block that the stream does not see. */
  predicate Idle(b: Block) {
    HoldsPath(b) && !Opens(b) && !(b.p1 == 0x80 && b.p2 == 0)
  }

  /** The content that the stream machine has filled in. */
  method TakeContent(context: TxContext, beyond: Memory, sha: Sha256, ripemd: KeyText.Ripemd160)
    returns (c: Content)
    requires context.Separate() && context.content.operationCount <= TX_MAX_OPERATIONS
    ensures c == ContentOf(context.View(), beyond, sha, ripemd)
  {
    var t := context.content;
    var n := t.operationCount;
    c := Content(t.operationIds[..][..n], t.operationOffsets[..][..n], MemoryOf(t.operationDataBuffer[..], beyond),
                 sha(context.txIdSha256), ripemd);
  }

  ghost predicate AllIdle(events: seq<Event>) {
    forall e <- events :: e.Arrives? ==> Idle(e.block)
  }

  /** The blocks among these events. */
  function BlocksOf(events: seq<Event>): seq<Block> {
    if events == [] then [] else
      BlocksOf(events[..|events| - 1])
      + if events[|events| - 1].Tick? then [] else [events[|events| - 1].block]
  }

  lemma IdleParts(b: Block, n: nat)
    requires Idle(b)
    ensures !Opens(b)
    ensures LengthAfter(n, [b]) == if b.p1 == 0x00 && b.data != [] then b.data[0] else n
  {
    assert [b][1..] == [];
  }

  lemma {:induction false} LengthAppend(n: nat, blocks: seq<Block>, b: Block)
    ensures LengthAfter(n, blocks + [b]) == LengthAfter(LengthAfter(n, blocks), [b])
    decreases |blocks|
  {
    if blocks == [] {
      assert [] + [b] == [b];
    } else {
      var m := if Refused(blocks[0]) then blocks[0].data[0] else n;
      assert (blocks + [b])[1..] == blocks[1..] + [b];
      LengthAppend(m, blocks[1..], b);
    }
  }

  lemma BlocksStep(events: seq<Event>, k: nat, n: nat)
    requires k < |events|
    ensures var before := LengthAfter(n, BlocksOf(events[..k]));
      LengthAfter(n, BlocksOf(events[..k + 1]))
      == if events[k].Tick? then before else LengthAfter(before, [events[k].block])
  {
    hide LengthAfter;
    assert events[..k + 1][..k] == events[..k];
    if events[k].Arrives? {
      LengthAppend(n, BlocksOf(events[..k]), events[k].block);
    } else {
      assert BlocksOf(events[..k]) + [] == BlocksOf(events[..k]);
    }
  }

  lemma NoBlocks(n: nat)
    ensures BlocksOf([]) == [] && LengthAfter(n, []) == n
  {
  }

  lemma NoTicks()
    ensures Ticks([]) == 0
  {
  }

  lemma TicksStep(events: seq<Event>, k: nat)
    requires k < |events|
    ensures Ticks(events[..k + 1]) == Ticks(events[..k]) + if events[k].Tick? then 1 else 0
  {
    assert events[..k + 1][..k] == events[..k];
  }

  /** The live content belongs to this review, which stands at p. */
  ghost predicate AtPosition(device: Device, review: ScreenMachine.Review, p: Position, beyond: Memory, sha: Sha256,
                             ripemd: KeyText.Ripemd160)
    reads device.Repr, review.Repr
  {
    && device.Apart() && UnderReview(LiveOf(device)) && review.Ready()
    && review.content == ContentOf(device.context.View(), beyond, sha, ripemd) && Screens.WellFormed(review.content)
    && OnCycle(review.content, p) && Stands(review.content, review.Now(), p)
  }

  /** A tick: what it finds in the live content is what the review began with. */
  method LiveRound(device: Device, review: ScreenMachine.Review, ghost p: Position, beyond: Memory, sha: Sha256,
                   ripemd: KeyText.Ripemd160)
    returns (screen: Screen)
    requires AtPosition(device, review, p, beyond, sha, ripemd) && device.Repr !! review.Repr
    modifies review.Repr
    ensures AtPosition(device, review, Next(review.content, p), beyond, sha, ripemd)
    ensures LiveOf(device) == old(LiveOf(device)) && device.pathLength == old(device.pathLength)
    ensures device.bip32Path[..] == old(device.bip32Path[..])
    ensures screen == Expected(review.content, Next(review.content, p))
  {
    hide UnderReview, Valid, Screens.WellFormed, OnCycle, Next, Expected, Stands, ContentOf;
    FewUnderReview(LiveOf(device));
    var live := TakeContent(device.context, beyond, sha, ripemd);
    assert live == review.content;
    review.Round(p);
    ScreenMachine.StandsSeen(review.content, review.Now(), Next(review.content, p));
    screen := review.Display();
  }

  /** An idle block: the review stands where it stood. */
  method IdleBlock(device: Device, review: ScreenMachine.Review, ghost p: Position, b: Block, ghost beyond: Memory,
                   ghost sha: Sha256, ghost ripemd: KeyText.Ripemd160)
    requires AtPosition(device, review, p, beyond, sha, ripemd) && device.Repr !! review.Repr && Idle(b)
    modifies device.Repr
    ensures AtPosition(device, review, p, beyond, sha, ripemd) && LiveOf(device) == old(LiveOf(device))
    ensures device.bip32Path[..] == old(device.bip32Path[..])
    ensures device.pathLength == LengthAfter(old(device.pathLength), [b])
  {
    hide UnderReview, Served, Idle, Valid, Screens.WellFormed, OnCycle, Stands, ContentOf, LengthAfter;
    IdleParts(b, device.pathLength);
    IdleStays(LiveOf(device), b);
    var _ := ServeBlock(device, b);
  }

  /** A chunk behind the end of the stream: content and hash stay, and the display is started over where it stands. */
  method ChunkBehindEnd(device: Device, review: ScreenMachine.Review, ghost p: Position, data: seq<byte>,
                        ghost beyond: Memory, ghost sha: Sha256, ghost ripemd: KeyText.Ripemd160)
    returns (reply: Reply)
    requires AtPosition(device, review, p, beyond, sha, ripemd) && device.Repr !! review.Repr
    modifies device.Repr, review.Repr
    ensures reply == Reviewing && LiveOf(device) == old(LiveOf(device)) && review.Ready()
    ensures review.Now() == Restarted(old(review.Now()))
  {
    hide UnderReview, Run, Valid, Screens.WellFormed, OnCycle, Stands, ContentOf, Restarted;
    FinishedAgain(LiveOf(device), data);
    reply := device.HandleSign(0x80, 0, data);
    if reply == Reviewing {
      review.Restart();
    }
  }

  lemma FinishedAgain(l: Live, data: seq<byte>)
    requires UnderReview(l)
    ensures Valid(l.stream) && l.stream.state == Done && l.hash == l.stream.msgHash
    ensures Run(l.stream, data).status == Finished && Run(l.stream, data).snap == l.stream
  {
    hide Valid;
  }

  /**
   * Ticks and idle blocks in any order: every tick finds in the live content what the review began with, and shows
   * its next screen; and what a confirmation would sign stays what is shown.
   */
  method WatchLive(device: Device, review: ScreenMachine.Review, events: seq<Event>, beyond: Memory, sha: Sha256,
                   ripemd: KeyText.Ripemd160)
    returns (screens: seq<Screen>)
    requires device.Apart() && UnderReview(LiveOf(device)) && device.Repr !! review.Repr && AllIdle(events)
    requires review.Ready() && review.content == ContentOf(device.context.View(), beyond, sha, ripemd)
    requires Screens.WellFormed(review.content) && Stands(review.content, review.Now(), Confirm)
    modifies device.Repr, review.Repr
    ensures LiveOf(device) == old(LiveOf(device)) && |screens| == Ticks(events) + 1
    ensures device.bip32Path[..] == old(device.bip32Path[..])
    ensures device.pathLength == LengthAfter(old(device.pathLength), BlocksOf(events))
    ensures forall j: nat :: j <= Ticks(events) ==> screens[j] == Expected(review.content, Walk(review.content, j))
  {
    hide UnderReview, Valid, Screens.WellFormed, OnCycle, Next, Expected, Stands, ContentOf, Idle, Ticks, AtPosition,
         BlocksOf, LengthAfter;
    var c := review.content;
    AtConfirm(device, review, beyond, sha, ripemd);
    NoTicks();
    NoBlocks(device.pathLength);
    screens := [review.Display()];
    ghost var p := Confirm;
    for k := 0 to |events|
      invariant LiveOf(device) == old(LiveOf(device)) && AtPosition(device, review, p, beyond, sha, ripemd)
      invariant device.bip32Path[..] == old(device.bip32Path[..])
      invariant device.pathLength == LengthAfter(old(device.pathLength), BlocksOf(events[..k]))
      invariant p == Walk(c, Ticks(events[..k]))
      invariant |screens| == Ticks(events[..k]) + 1
      invariant forall j: nat :: j < |screens| ==> screens[j] == Expected(c, Walk(c, j))
    {
      TicksStep(events, k);
      BlocksStep(events, k, old(device.pathLength));
      match events[k] {
        case Tick =>
          var screen := LiveRound(device, review, p, beyond, sha, ripemd);
          p := Next(c, p);
          screens := screens + [screen];
        case Arrives(b) =>
          assert events[k] in events;
          IdleBlock(device, review, p, b, beyond, sha, ripemd);
      }
    }
    assert events[..|events|] == events;
  }

  lemma AtConfirm(device: Device, review: ScreenMachine.Review, beyond: Memory, sha: Sha256, ripemd: KeyText.Ripemd160)
    requires device.Apart() && UnderReview(LiveOf(device))
    requires review.Ready() && review.content == ContentOf(device.context.View(), beyond, sha, ripemd)
    requires Screens.WellFormed(review.content) && Stands(review.content, review.Now(), Confirm)
    ensures AtPosition(device, review, Confirm, beyond, sha, ripemd)
    ensures Seen(review.Now()) == Expected(review.content, Walk(review.content, 0))
  {
    hide UnderReview, Valid, Screens.WellFormed, OnCycle, Expected, Stands, ContentOf;
    StartIndex(review.content);
    ScreenMachine.StandsSeen(review.content, review.Now(), Confirm);
  }

  lemma FewUnderReview(l: Live)
    requires UnderReview(l)
    ensures l.stream.opCount <= TX_MAX_OPERATIONS
  {
  }

  lemma IdleStays(l: Live, b: Block)
    requires UnderReview(l) && Idle(b)
    ensures Served(l, b) == Some(l)
  {
    hide UnderReview, Served;
    DoneStays(l, b);
  }
}
