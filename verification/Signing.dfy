/** A signing session: the command handler of the device and the chunk loop of the host. */
module Signing {
  import opened Numerals
  import opened Outcomes
  import opened StreamSpec
  import opened StreamChunks
  import opened StreamMachine
  import opened StreamFields
  import opened HostEncoding
  import opened RoundTrip

  const P1_FIRST: byte := 0x00
  const P1_MORE: byte := 0x80
  const MAX_BIP32_PATH: nat := 10
  const CHUNK: nat := 200

  /**
   * How a session ends for the host. Unpredictable: the stream was copied past the end of sizeBuffer, and nothing is
   * said about what the device does then.
   */
  datatype Outcome = Returned | Raised | Unpredictable

  /** A status word, or the start of the review on the screen. Undefined stands for an overrun of sizeBuffer. */
  datatype Reply = StatusWord(code: nat) | Reviewing | Undefined

  function ReplyOf(status: Status): Reply {
    match status
    case Processing => StatusWord(0x9000)
    case Finished => Reviewing
    case Fault => StatusWord(0x6A80)
    case Overrun => Undefined
  }

  type uint32 = v: int | 0 <= v < 0x1_0000_0000

  function BigEndian(v: uint32): seq<byte> {
    [v / 0x100_0000, v / 0x1_0000 % 256, v / 256 % 256, v % 256]
  }

  function Word(b: seq<byte>): nat
    requires |b| >= 4
  {
    (b[0] as int) * 0x100_0000 + (b[1] as int) * 0x1_0000 + (b[2] as int) * 256 + b[3]
  }

  /** The 32-bit words in front of a path block. */
  function Words(b: seq<byte>, n: nat): seq<nat>
    requires |b| >= 4 * n
  {
    if n == 0 then [] else Words(b, n - 1) + [Word(b[4 * (n - 1)..])]
  }

  /** One path element as it travels: hardened ones have the top bit set. */
  function PathWord(index: nat, hardened: bool): nat {
    if hardened && index < 0x8000_0000 then index + 0x8000_0000 else index
  }

  /** A word is the four bytes' value, the first of them counting most. */
  lemma WordValue(b: seq<byte>)
    requires |b| >= 4
    ensures Word(b) == Val(b[..4], 256)
  {
    FourOctets(b[..4]);
  }

  lemma FourOctets(d: seq<nat>)
    requires |d| == 4
    ensures Val(d, 256) == d[0] * 0x100_0000 + d[1] * 0x1_0000 + d[2] * 256 + d[3]
  {
    var v: nat := Val(d[..3], 256);
    assert d[..3][..2] == d[..2] && d[..2][..1] == d[..1] && d[..1][..0] == [];
    assert Val(d[..1], 256) == d[0] && Val(d[..2], 256) == d[0] * 256 + d[1];
    assert v == (d[0] * 256 + d[1]) * 256 + d[2];
  }

  function PathBytes(path: seq<uint32>): seq<byte> {
    if path == [] then [] else PathBytes(path[..|path| - 1]) + BigEndian(path[|path| - 1])
  }

  lemma WordRoundTrip(v: uint32, rest: seq<byte>)
    ensures |BigEndian(v)| == 4 && Word(BigEndian(v) + rest) == v
  {
    var b := BigEndian(v) + rest;
    assert b[0] == v / 0x100_0000 && b[1] == v / 0x1_0000 % 256 && b[2] == v / 256 % 256 && b[3] == v % 256;
    FourBytes(v);
    hide BigEndian;
  }

  lemma FourBytes(v: uint32)
    ensures v / 0x100_0000 * 0x100_0000 + v / 0x1_0000 % 256 * 0x1_0000 + v / 256 % 256 * 256 + v % 256 == v
  {
    var a := v / 256;
    var b := a / 256;
    assert v == 256 * a + v % 256 && a == 256 * b + a % 256 && b == 256 * (b / 256) + b % 256;
    assert v / 0x1_0000 == b && v / 0x100_0000 == b / 256;
  }

  lemma {:induction false} PathLength(path: seq<uint32>)
    ensures |PathBytes(path)| == 4 * |path|
  {
    if path != [] {
      PathLength(path[..|path| - 1]);
    }
  }

  lemma WordsStep(b: seq<byte>, n: nat)
    requires |b| >= 4 * n && n > 0
    ensures |b[4 * (n - 1)..]| >= 4 && Words(b, n) == Words(b, n - 1) + [Word(b[4 * (n - 1)..])]
  {
    hide Word;
  }

  lemma PathStep(path: seq<uint32>)
    requires path != []
    ensures PathBytes(path) == PathBytes(path[..|path| - 1]) + BigEndian(path[|path| - 1])
    ensures |PathBytes(path)| == 4 * |path| && |PathBytes(path[..|path| - 1])| == 4 * (|path| - 1)
  {
    hide BigEndian;
    PathLength(path);
    PathLength(path[..|path| - 1]);
  }

  lemma NoPath()
    ensures PathBytes([]) == []
  {
  }

  lemma NoWords(b: seq<byte>)
    ensures Words(b, 0) == []
  {
  }

  /** The last word of a path block, behind the words before it. */
  lemma LastWord(front: seq<byte>, v: uint32, rest: seq<byte>, n: nat)
    requires |front| == 4 * n
    ensures |front + BigEndian(v) + rest| >= 4 * (n + 1)
    ensures Words(front + BigEndian(v) + rest, n + 1) == Words(front + (BigEndian(v) + rest), n) + [v]
  {
    hide Word, Words, BigEndian;
    WordRoundTrip(v, rest);
    var last, all := BigEndian(v), front + BigEndian(v) + rest;
    assert all == front + (last + rest) && all[4 * n..] == last + rest;
    WordsStep(all, n + 1);
  }

  lemma {:induction false} PathRoundTrip(path: seq<uint32>, rest: seq<byte>)
    ensures |PathBytes(path)| == 4 * |path|
    ensures Words(PathBytes(path) + rest, |path|) == path
  {
    hide Word, BigEndian, Words, PathBytes;
    PathLength(path);
    if path == [] {
      NoWords(PathBytes(path) + rest);
    } else {
      var n := |path| - 1;
      var front, last := PathBytes(path[..n]), BigEndian(path[n]);
      PathStep(path);
      PathRoundTrip(path[..n], last + rest);
      LastWord(front, path[n], rest, n);
      assert path == path[..n] + [path[n]];
    }
  }

  /** A hardened element has the top bit set above its index; any other is its index. */
  predicate WordOf(word: nat, element: (nat, bool)) {
    if element.1 then word >= 0x8000_0000 && word % 0x8000_0000 == element.0 % 0x8000_0000 else word == element.0
  }

  /** Index and hardening, as far as a word tells them. */
  function ElementOf(word: nat): (nat, bool) {
    (word % 0x8000_0000, word >= 0x8000_0000)
  }

  /** The words of a path begin with those of these elements, and as far as they tell them, with no others. */
  predicate PathHeld(words: seq<nat>, elements: seq<(nat, bool)>) {
    && |elements| <= |words|
    && (forall k :: 0 <= k < |elements| ==> WordOf(words[k], elements[k]))
    && (forall k :: 0 <= k < |elements| && elements[k].0 < 0x8000_0000 ==> ElementOf(words[k]) == elements[k])
  }

  /** A path element can be told from its word, as long as it is below 2^31. */
  lemma PathWordSays(index: nat, hardened: bool)
    requires index < 0x1_0000_0000
    ensures var w := PathWord(index, hardened);
      && w < 0x1_0000_0000 && WordOf(w, (index, hardened))
      && (hardened ==> w >= 0x8000_0000 && w % 0x8000_0000 == index % 0x8000_0000) && (!hardened ==> w == index)
      && (index < 0x8000_0000 ==> ElementOf(w) == (index, hardened))
  {
  }

  lemma PathWordFits(index: nat, hardened: bool)
    ensures PathWord(index, hardened) < 0x1_0000_0000 <==> index < 0x1_0000_0000
  {
  }

  /** `parse_bip32_path` on a path already split into its elements; an element too large to pack is an error. */
  method ParseBip32Path(elements: seq<(nat, bool)>) returns (r: Result<seq<byte>>, ghost path: seq<uint32>)
    ensures r.Ok? <==> forall e <- elements :: e.0 < 0x1_0000_0000
    ensures r.Ok? ==> r.value == PathBytes(path) && |path| == |elements|
    ensures r.Ok? ==> forall k :: 0 <= k < |path| ==> WordOf(path[k], elements[k])
    ensures r.Ok? ==> forall k :: 0 <= k < |path| && elements[k].0 < 0x8000_0000 ==> ElementOf(path[k]) == elements[k]
  {
    hide BigEndian, PathBytes, PathWord, WordOf, ElementOf;
    var result: seq<byte> := [];
    path := [];
    NoPath();
    for i := 0 to |elements|
      invariant |path| == i && result == PathBytes(path)
      invariant forall k :: 0 <= k < i ==>
          elements[k].0 < 0x1_0000_0000 && WordOf(path[k], elements[k])
      invariant forall k :: 0 <= k < i && elements[k].0 < 0x8000_0000 ==> ElementOf(path[k]) == elements[k]
    {
      var word := PathWord(elements[i].0, elements[i].1);
      PathWordFits(elements[i].0, elements[i].1);
      if word >= 0x1_0000_0000 {
        assert elements[i] in elements;
        return Throw(Exception), path;
      }
      PathWordSays(elements[i].0, elements[i].1);
      ghost var longer := path + [word];
      assert longer[..i] == path;
      PathStep(longer);
      result := result + BigEndian(word);
      path := longer;
    }
    return Ok(result), path;
  }

  class Device {
    const context: TxContext
    /** The message hash that a confirmation would sign, as the bytes it is the digest of. */
    var hash: seq<byte>
    var pathLength: nat
    const bip32Path: array<nat>

    ghost const Repr: set<object> := {this, bip32Path} + context.Repr

    ghost predicate Apart() {
      && context.Separate() && bip32Path.Length == MAX_BIP32_PATH && this !in context.Repr
      && bip32Path != context.content.operationIds && bip32Path != context.content.operationOffsets
    }

    constructor (context: TxContext)
      requires context.Separate()
      ensures this.context == context && Apart() && fresh(bip32Path)
      ensures pathLength == 0
    {
      this.context := context;
      hash := [];
      pathLength := 0;
      bip32Path := new nat[MAX_BIP32_PATH];
    }

    /** The path block in front of the first chunk. */
    method ReadPath(data: seq<byte>)
      requires Apart() && |data| >= 4 * pathLength && pathLength <= 10
      modifies bip32Path
      ensures bip32Path[..pathLength] == Words(data, pathLength)
    {
      for i := 0 to pathLength
        invariant bip32Path[..i] == Words(data, i)
      {
        bip32Path[i] := Word(data[4 * i..]);
        assert bip32Path[..i + 1] == bip32Path[..i] + [bip32Path[i]];
      }
    }

    /**
     * `handleSign`. A first block must hold the path it announces, and a chunk must not follow one that left a buffer
     * full or overrun. The length of the path is overwritten even if the block is then refused; the message hash only
     * when a stream has finished.
     */
    method HandleSign(p1: byte, p2: byte, data: seq<byte>) returns (reply: Reply)
      requires Apart()
      requires p1 == 0x00 ==> data != [] && (1 <= data[0] <= 10 ==> |data| >= 1 + 4 * data[0])
      requires p1 == 0x80 && p2 == 0 ==> context.state == NoState || Valid(context.View())
      modifies Repr
      ensures hash == if reply == Reviewing then context.sha256 else old(hash)
      ensures pathLength == if p1 == 0x00 then data[0] else old(pathLength)
      ensures !(p1 == 0x00 && 1 <= data[0] <= 10) ==> bip32Path[..] == old(bip32Path[..])
      ensures p1 == 0x00 && !(1 <= data[0] <= 10) ==>
        reply == StatusWord(0x6A80) && context.View() == old(context.View())
      ensures p1 != 0x00 && p1 != 0x80 ==>
        reply == StatusWord(0x6B00) && context.View() == old(context.View())
      ensures p1 == 0x00 && 1 <= data[0] <= 10 ==>
        && bip32Path[..pathLength] == Words(data[1..], data[0])
        && (p2 != 0 ==> reply == StatusWord(0x6B00) && context.View() == Init())
        && (p2 == 0 ==> Continues(Init(), data[1 + 4 * data[0]..], reply, context.View()))
      ensures p1 == 0x80 ==>
        && (p2 != 0 || old(context.state) == NoState ==> context.View() == old(context.View()))
        && (p2 != 0 ==> reply == StatusWord(0x6B00))
        && (p2 == 0 && old(context.state) == NoState ==> reply == StatusWord(0x6985))
        && (p2 == 0 && old(context.state) != NoState ==> Continues(old(context.View()), data, reply, context.View()))
    {
      hide Run, Valid, Words, ReplyOf, Continues;
      InitValid();
      var workBuffer := data;
      if p1 == P1_FIRST {
        pathLength := workBuffer[0];
        if pathLength < 1 || pathLength > MAX_BIP32_PATH {
          return StatusWord(0x6A80);
        }
        workBuffer := OpenRequest(workBuffer[1..]);
      } else if p1 != P1_MORE {
        return StatusWord(0x6B00);
      }
      if p2 != 0 {
        return StatusWord(0x6B00);
      }
      if context.state == NoState {
        return StatusWord(0x6985);
      }
      reply := Ingest(workBuffer);
    }

    /** The path is read, and all that is known of a transaction is forgotten; what follows the path is left. */
    method OpenRequest(data: seq<byte>) returns (workBuffer: seq<byte>)
      requires Apart() && pathLength <= 10 && |data| >= 4 * pathLength
      modifies bip32Path, context.Repr
      ensures bip32Path[..pathLength] == Words(data, pathLength) && workBuffer == data[4 * pathLength..]
      ensures context.View() == Init()
    {
      ReadPath(data);
      workBuffer := data[4 * pathLength..];
      context.Init();
    }

    /** The stream goes on; when it has finished, the message hash is taken and the review starts. */
    method Ingest(workBuffer: seq<byte>) returns (reply: Reply)
      requires Apart() && Valid(context.View())
      modifies this`hash, context.Repr
      ensures Continues(old(context.View()), workBuffer, reply, context.View())
      ensures hash == if reply == Reviewing then context.sha256 else old(hash)
    {
      hide Run, Valid, ReplyOf, Continues;
      ghost var s := context.View();
      var status := context.ProcessTxStream(workBuffer);
      OnlyFinished(status);
      if status == Finished {
        hash := context.sha256;
      }
      reply := ReplyOf(status);
      ContinuesBy(s, workBuffer, reply, context.View());
    }
  }

  lemma OnlyFinished(status: Status)
    ensures ReplyOf(status) == Reviewing <==> status == Finished
  {
  }

  /** The reply and the snapshot a call leaves when it runs on `input` from s. */
  ghost predicate Continues(s: Snapshot, input: seq<byte>, reply: Reply, after: Snapshot) {
    && Valid(s) && after == Run(s, input).snap
    && match Run(s, input).status
       case Processing => reply == StatusWord(0x9000)
       case Finished => reply == Reviewing
       case Fault => reply == StatusWord(0x6A80)
       case Overrun => reply == Undefined
  }

  /** The reply to a call, by its status. */
  lemma ContinuesBy(s: Snapshot, input: seq<byte>, reply: Reply, after: Snapshot)
    requires Valid(s) && reply == ReplyOf(Run(s, input).status) && after == Run(s, input).snap
    ensures Continues(s, input, reply, after)
  {
    hide Valid, Run;
  }

  // ---- the path a transaction is signed with ----

  /** What a command carries. */
  datatype Block = Block(p1: byte, p2: byte, data: seq<byte>)

  /** A request that is started over. */
  predicate Opens(b: Block) {
    b.p1 == 0x00 && b.data != [] && 1 <= b.data[0] <= 10
  }

  /** A first block whose path has no element or more than ten. */
  predicate Refused(b: Block) {
    b.p1 == 0x00 && b.data != [] && !(1 <= b.data[0] <= 10)
  }

  function ChunkOf(b: Block): seq<seq<byte>> {
    if b.p1 == 0x80 && b.p2 == 0 then [b.data] else []
  }

  /** The chunks among the blocks. */
  function ChunksOf(blocks: seq<Block>): seq<seq<byte>> {
    if blocks == [] then [] else ChunkOf(blocks[0]) + ChunksOf(blocks[1..])
  }

  /** The path length that blocks leave behind which do not open a request. */
  function LengthAfter(n: nat, blocks: seq<Block>): nat
    decreases |blocks|
  {
    if blocks == [] then n
    else LengthAfter(if Refused(blocks[0]) then blocks[0].data[0] else n, blocks[1..])
  }

  /**
   * The transaction that is reviewed will be signed with the path it was opened with if and only if none of the
   * blocks served since then was a refused first block.
   */
  lemma {:induction false} LengthAsOpened(n: nat, blocks: seq<Block>)
    ensures 1 <= n <= 10 ==> (LengthAfter(n, blocks) == n <==> forall b <- blocks :: !Refused(b))
    ensures !(1 <= n <= 10) ==> !(1 <= LengthAfter(n, blocks) <= 10)
    decreases |blocks|
  {
    if blocks != [] {
      LengthAsOpened(if Refused(blocks[0]) then blocks[0].data[0] else n, blocks[1..]);
      assert blocks == [blocks[0]] + blocks[1..];
    }
  }

  lemma FeedDone(s: Snapshot, chunks: seq<seq<byte>>)
    requires Valid(s) && s.state == Done
    ensures Feed(s, chunks).status == Finished && Feed(s, chunks).snap == s
  {
    hide Valid;
  }

  /** Feeding one more chunk and then the others. */
  lemma FeedStep(s: Snapshot, chunk: seq<byte>, others: seq<seq<byte>>)
    requires Valid(s) && Going(Feed(s, [chunk] + others).status)
    ensures Going(Run(s, chunk).status) && Valid(Run(s, chunk).snap)
    ensures var f := Feed(Run(s, chunk).snap, others); Going(f.status) && f.snap == Feed(s, [chunk] + others).snap
  {
    hide Valid, Run;
    assert ([chunk] + others)[1..] == others;
    if Run(s, chunk).status == Finished {
      FeedDone(Run(s, chunk).snap, others);
    }
  }

  /** One such block, with others behind it. */
  method ServeOne(device: Device, block: Block, ghost later: seq<seq<byte>>) returns (reply: Reply)
    requires device.Apart() && Valid(device.context.View()) && !Opens(block)
    requires (block.p1 == 0x00 ==> block.data != [])
    requires Going(Feed(device.context.View(), ChunkOf(block) + later).status)
    modifies device.Repr
    ensures Valid(device.context.View()) && Going(Feed(device.context.View(), later).status)
    ensures Feed(device.context.View(), later).snap == Feed(old(device.context.View()), ChunkOf(block) + later).snap
    ensures device.pathLength == (if Refused(block) then block.data[0] else old(device.pathLength))
    ensures Refused(block) ==> reply == StatusWord(0x6A80)
    ensures device.bip32Path[..] == old(device.bip32Path[..])
    ensures old(HashSettled(device)) ==> HashSettled(device)
  {
    hide Feed, Valid, Run, Words, Going, Continues;
    NotUnopened(device.context.View());
    if block.p1 == 0x80 && block.p2 == 0 {
      FeedStep(device.context.View(), block.data, later);
    } else {
      assert ChunkOf(block) + later == later;
    }
    ghost var s := device.context.View();
    reply := device.HandleSign(block.p1, block.p2, block.data);
    if block.p1 == 0x80 && block.p2 == 0 {
      Continued(s, block.data, reply, device.context.View());
      DoneIsFinished(s, block.data);
    }
  }

  /** Whenever a stream has finished, the message hash is that of the stream. */
  predicate HashSettled(device: Device)
    reads device, device.context
  {
    device.context.state == Done ==> device.hash == device.context.sha256
  }

  lemma DoneIsFinished(s: Snapshot, input: seq<byte>)
    requires Valid(s)
    ensures Going(Run(s, input).status) && Run(s, input).snap.state == Done ==>
        ReplyOf(Run(s, input).status) == Reviewing
  {
    hide Valid;
  }

  lemma NotUnopened(s: Snapshot)
    requires Valid(s)
    ensures s.state != NoState
  {
  }

  lemma Continued(s: Snapshot, input: seq<byte>, reply: Reply, after: Snapshot)
    requires Continues(s, input, reply, after)
    ensures Valid(s) && reply == ReplyOf(Run(s, input).status) && after == Run(s, input).snap
  {
  }

  /**
   * Blocks that do not start the request over, of which no chunk is faulty: the stream sees only the chunks, and the
   * words of the path stay, but its length is that of the last refused block.
   */
  method ServeMore(device: Device, blocks: seq<Block>) returns (replies: seq<Reply>)
    requires device.Apart() && Valid(device.context.View())
    requires Going(Feed(device.context.View(), ChunksOf(blocks)).status)
    requires forall b <- blocks :: !Opens(b) && (b.p1 == 0x00 ==> b.data != [])
    modifies device.Repr
    ensures Valid(old(device.context.View())) && |replies| == |blocks|
    ensures forall i :: 0 <= i < |blocks| && Refused(blocks[i]) ==> replies[i] == StatusWord(0x6A80)
    ensures device.context.View() == Feed(old(device.context.View()), ChunksOf(blocks)).snap
    ensures device.pathLength == LengthAfter(old(device.pathLength), blocks)
    ensures device.bip32Path[..] == old(device.bip32Path[..])
    ensures old(HashSettled(device)) ==> HashSettled(device)
    decreases |blocks|
  {
    hide Feed, Valid, Run, Going, Opens, Refused;
    if blocks == [] {
      FeedNothing(device.context.View());
      return [];
    }
    var reply := ServeOne(device, blocks[0], ChunksOf(blocks[1..]));
    var others := ServeMore(device, blocks[1..]);
    replies := [reply] + others;
  }

  lemma FeedNothing(s: Snapshot)
    requires Valid(s)
    ensures Feed(s, []).snap == s
  {
    hide Valid;
  }

  // ---- the chunk loop ----

  function Cut(n: nat, k: nat): nat {
    Min(200 * k, n)
  }

  /** What the run over the first k chunks gives. */
  function Upto(serial: seq<byte>, k: nat): (r: Step)
    ensures r.status == Processing || r.status == Finished ==> Valid(r.snap)
  {
    FromStart(serial[..Cut(|serial|, k)])
  }

  predicate Going(status: Status) {
    status == Processing || status == Finished
  }

  /** One more chunk continues the run. */
  lemma NextChunk(serial: seq<byte>, k: nat)
    requires 200 * k < |serial| && Going(Upto(serial, k).status)
    ensures var r := Run(Upto(serial, k).snap, serial[Cut(|serial|, k)..Cut(|serial|, k + 1)]);
      r.status == Upto(serial, k + 1).status && (Going(r.status) ==> r.snap == Upto(serial, k + 1).snap)
  {
    hide Run, Valid, FromStart;
    var a, b := serial[..Cut(|serial|, k)], serial[Cut(|serial|, k)..Cut(|serial|, k + 1)];
    assert serial[..Cut(|serial|, k + 1)] == a + b;
    FromStartConcat(a, b);
    AfterDone(Upto(serial, k).snap, b);
    FinishedDone(a);
  }

  lemma FinishedDone(a: seq<byte>)
    ensures FromStart(a).status == Finished ==> FromStart(a).snap.state == Done
  {
    InitValid();
  }

  lemma AfterDone(s: Snapshot, b: seq<byte>)
    requires Valid(s)
    ensures s.state == Done ==> Run(s, b) == Step(Finished, s, b)
  {
  }

  /** An aborted prefix aborts the whole. */
  lemma AbortSpreads(serial: seq<byte>, k: nat)
    requires !Going(Upto(serial, k).status)
    ensures FromStart(serial).status == Upto(serial, k).status
  {
    hide FromStart, Run;
    var n := Cut(|serial|, k);
    assert serial == serial[..n] + serial[n..];
    FromStartConcat(serial[..n], serial[n..]);
  }

  /** The paths the device takes. */
  predicate PathFits(path: seq<uint32>) {
    1 <= |path| <= 10
  }

  /** A session starts over: the first block carries the path and the first chunk. */
  method ExchangeFirst(device: Device, donglePath: seq<byte>, chunk: seq<byte>,
                       ghost path: seq<uint32>) returns (reply: Reply)
    requires device.Apart() && donglePath == PathBytes(path) && |donglePath| + 1 + |chunk| < 256
    modifies device.Repr
    ensures device.pathLength == |path|
    ensures PathFits(path) ==>
      device.bip32Path[..|path|] == path && Continues(Init(), chunk, reply, device.context.View())
    ensures !PathFits(path) ==> Refusal(reply) && device.context.View() == old(device.context.View())
    ensures reply == Reviewing ==> device.hash == device.context.sha256
  {
    hide PathBytes, Words, Run, Valid, ReplyOf, Continues;
    PathRoundTrip(path, chunk);
    var pathSize: byte := |donglePath| / 4;
    var data := [pathSize] + donglePath + chunk;
    assert data[1..] == donglePath + chunk && data[1 + 4 * |path|..] == chunk;
    reply := device.HandleSign(0x00, 0, data);
  }

  /** The reply to a path that the device does not take. */
  predicate Refusal(reply: Reply) {
    reply == StatusWord(0x6A80)
  }

  /** After some chunks: every reply is the one due, and the device is where one call on their whole would leave it. */
  ghost predicate Session(device: Device, serial: seq<byte>, path: seq<uint32>, replies: seq<Reply>)
    reads device.Repr
  {
    && device.Apart() && Replied(serial, replies) && Going(Upto(serial, |replies|).status)
    && (replies != [] ==> PathFits(path) && device.context.View() == Upto(serial, |replies|).snap)
    && (replies != [] ==> device.pathLength == |path| && device.bip32Path[..device.pathLength] == path)
    && HashTaken(device, replies)
  }

  lemma LastReply(replies: seq<Reply>, reply: Reply)
    ensures (replies + [reply])[|replies + [reply]| - 1] == reply
  {
  }

  /** If the last reply was the start of a review, the message hash is that of the stream. */
  predicate HashTaken(device: Device, replies: seq<Reply>)
    reads device, device.context
  {
    replies != [] && replies[|replies| - 1] == Reviewing ==> device.hash == device.context.sha256
  }

  ghost predicate Replied(serial: seq<byte>, replies: seq<Reply>) {
    forall i :: 0 <= i < |replies| ==> replies[i] == ReplyOf(Upto(serial, i + 1).status)
  }

  /** The reply is the one due to a stream that is rejected. */
  ghost predicate Aborted(serial: seq<byte>, reply: Reply) {
    !Going(FromStart(serial).status) && reply == ReplyOf(FromStart(serial).status)
  }

  /** One round of the loop. */
  method Exchange(device: Device, serial: seq<byte>, donglePath: seq<byte>, first: bool, chunk: seq<byte>,
                  ghost path: seq<uint32>, ghost replies: seq<Reply>)
    returns (reply: Reply)
    requires Session(device, serial, path, replies) && first == (replies == [])
    requires donglePath == PathBytes(path) && (first ==> |donglePath| + 1 + |chunk| < 256)
    requires 200 * |replies| < |serial|
    requires chunk == serial[Cut(|serial|, |replies|)..Cut(|serial|, |replies| + 1)]
    modifies device.Repr
    ensures PathFits(path) ==> Replied(serial, replies + [reply])
    ensures PathFits(path) ==>
      if Accepted(reply) then Session(device, serial, path, replies + [reply]) else Aborted(serial, reply)
    ensures !PathFits(path) ==>
      first && Refusal(reply) && device.pathLength == |path| && device.context.View() == old(device.context.View())
  {
    hide Run, Valid, FromStart, Upto, Words, PathBytes, ReplyOf, Replied, Continues, PathFits;
    ghost var n := |replies|;
    ghost var start := Upto(serial, n).snap;
    FreshStart(serial);
    StartValid(serial, n);
    NextChunk(serial, n);
    if first {
      reply := ExchangeFirst(device, donglePath, chunk, path);
    } else {
      reply := ExchangeMore(device, chunk);
    }
    if PathFits(path) {
      LastReply(replies, reply);
      SessionGrows(device, serial, path, replies, start, chunk, reply);
    }
  }

  lemma SessionGrows(device: Device, serial: seq<byte>, path: seq<uint32>, replies: seq<Reply>,
                     start: Snapshot, chunk: seq<byte>, reply: Reply)
    requires device.Apart() && PathFits(path) && Replied(serial, replies)
    requires Valid(start) && Continues(start, chunk, reply, device.context.View())
    requires var r, whole := Run(start, chunk), Upto(serial, |replies| + 1);
      r.status == whole.status && (Going(r.status) ==> r.snap == whole.snap)
    requires device.pathLength == |path| && device.bip32Path[..device.pathLength] == path
    requires HashTaken(device, replies + [reply])
    ensures Replied(serial, replies + [reply])
    ensures if Accepted(reply) then Session(device, serial, path, replies + [reply]) else Aborted(serial, reply)
  {
    hide Run, Valid, FromStart, Upto, ReplyOf, Continues;
    Continued(start, chunk, reply, device.context.View());
    GoingIsAccepted(Upto(serial, |replies| + 1).status);
    if !Accepted(reply) {
      AbortSpreads(serial, |replies| + 1);
    }
  }

  /** The host goes on after these, and throws after any other. */
  predicate Accepted(reply: Reply) {
    reply == StatusWord(0x9000) || reply == Reviewing
  }

  lemma GoingIsAccepted(status: Status)
    ensures Going(status) <==> Accepted(ReplyOf(status))
  {
  }

  lemma StartValid(serial: seq<byte>, n: nat)
    requires Going(Upto(serial, n).status)
    ensures Valid(Upto(serial, n).snap)
  {
    hide FromStart;
  }

  lemma FreshStart(serial: seq<byte>)
    ensures Upto(serial, 0).snap == Init()
  {
    InitValid();
    assert serial[..0] == [];
  }

  /** A session goes on: the next chunk alone. */
  method ExchangeMore(device: Device, chunk: seq<byte>) returns (reply: Reply)
    requires device.Apart() && Valid(device.context.View())
    modifies device.Repr
    ensures device.pathLength == old(device.pathLength) && device.bip32Path[..] == old(device.bip32Path[..])
    ensures Continues(old(device.context.View()), chunk, reply, device.context.View())
    ensures reply == Reviewing ==> device.hash == device.context.sha256
  {
    hide Run;
    reply := device.HandleSign(0x80, 0, chunk);
  }

  /**
   * The loop of `getSignatureFromNano`: the serialized transaction in chunks of at most 200 bytes, the first
   * behind the derivation path, until all is sent or the device refuses. If the device takes the path, every block fits
   * the one-byte length of an APDU, and the device ends where one call on the whole serialization would end. Any other
   * path is refused with the first block, or, if the block would be too long, it is not even sent: its length then has
   * three hexadecimal digits, which `unhexlify` does not take. There is no result either if there is nothing to send.
   * A stream that is copied past the end of sizeBuffer on its way has an unpredictable outcome.
   */
  method GetSignatureFromNano(device: Device, serial: seq<byte>, donglePath: seq<byte>, ghost path: seq<uint32>)
    returns (outcome: Outcome, replies: seq<Reply>)
    requires device.Apart() && donglePath == PathBytes(path) && |path| < 256
    modifies device.Repr
    ensures outcome == Unpredictable <==> PathFits(path) && serial != [] && FromStart(serial).status == Overrun
    ensures outcome == Returned <==> PathFits(path) && serial != [] && Going(FromStart(serial).status)
    ensures PathFits(path) ==> Replied(serial, replies)
    ensures !PathFits(path) ==> device.context.View() == old(device.context.View()) && forall r <- replies :: Refusal(r)
    ensures !PathFits(path) ==> |replies| == if serial != [] && BlockFits(serial, path) then 1 else 0
    ensures outcome == Returned ==> 200 * (|replies| - 1) < |serial| <= 200 * |replies|
    ensures outcome == Returned ==> device.context.View() == FromStart(serial).snap && HashTaken(device, replies)
    ensures outcome == Returned ==> device.pathLength == |path| && device.bip32Path[..device.pathLength] == path
  {
    hide FromStart, Session, Replied, Valid, Run, Upto, PathBytes, Words, ReplyOf, Going, PathFits;
    PathLength(path);
    StartSession(device, serial, path);
    SmallBlock(serial, path);
    var offset, first := 0, true;
    replies := [];
    while offset != |serial|
      invariant Session(device, serial, path, replies)
      invariant !PathFits(path) ==> first && device.context.View() == old(device.context.View())
      invariant offset == Cut(|serial|, |replies|) && first == (replies == [])
      invariant replies != [] ==> 200 * (|replies| - 1) < |serial|
      decreases |serial| - offset
    {
      var chunk := if |serial| - offset > CHUNK then serial[offset..offset + CHUNK] else serial[offset..];
      ChunkIsNext(serial, |replies|);
      if first && |donglePath| + 1 + |chunk| >= 256 {
        return Raised, replies;
      }
      var reply := Exchange(device, serial, donglePath, first, chunk, path, replies);
      first := false;
      offset := offset + |chunk|;
      replies := replies + [reply];
      if !Accepted(reply) {
        OnlyOverrun(serial);
        return if reply == Undefined then Unpredictable else Raised, replies;
      }
    }
    if serial == [] {
      NothingSent(device, serial, path);
      return Raised, replies;
    }
    EndSession(device, serial, path, replies);
    outcome := Returned;
  }

  lemma ChunkIsNext(serial: seq<byte>, k: nat)
    requires Cut(|serial|, k) != |serial|
    ensures 200 * k < |serial| && Cut(|serial|, k) == 200 * k
    ensures var offset := Cut(|serial|, k);
      serial[offset..Cut(|serial|, k + 1)]
      == if |serial| - offset > 200 then serial[offset..offset + 200] else serial[offset..]
  {
  }

  lemma OnlyOverrun(serial: seq<byte>)
    ensures ReplyOf(FromStart(serial).status) == Undefined <==> FromStart(serial).status == Overrun
    ensures Going(FromStart(serial).status) ==> FromStart(serial).status != Overrun
  {
  }

  /** The first block has a length of one byte. */
  predicate BlockFits(serial: seq<byte>, path: seq<uint32>) {
    4 * |path| + 1 + Cut(|serial|, 1) < 256
  }

  lemma SmallBlock(serial: seq<byte>, path: seq<uint32>)
    ensures PathFits(path) ==> BlockFits(serial, path)
  {
  }

  lemma NothingSent(device: Device, serial: seq<byte>, path: seq<uint32>)
    requires Session(device, serial, path, []) && serial == []
    ensures Replied(serial, [])
  {
  }

  lemma StartSession(device: Device, serial: seq<byte>, path: seq<uint32>)
    requires device.Apart()
    ensures Session(device, serial, path, [])
  {
    InitValid();
    assert serial[..0] == [];
  }

  lemma EndSession(device: Device, serial: seq<byte>, path: seq<uint32>, replies: seq<Reply>)
    requires Session(device, serial, path, replies) && Cut(|serial|, |replies|) == |serial| && serial != []
    ensures PathFits(path) && HashTaken(device, replies)
    ensures Replied(serial, replies) && Going(FromStart(serial).status) && FromStart(serial).status != Overrun
    ensures device.context.View() == FromStart(serial).snap
    ensures device.pathLength == |path| && device.bip32Path[..device.pathLength] == path
  {
    hide FromStart, Valid;
    assert serial[..|serial|] == serial;
  }

  // ---- the whole session ----

  /** A stream that finishes exactly at its end is still being processed after every shorter prefix. */
  lemma StrictPrefixProcessing(a: seq<byte>, b: seq<byte>)
    requires b != [] && FromStart(a + b).status == Finished && FromStart(a + b).rest == []
    ensures FromStart(a).status == Processing
  {
    hide FromStart, Run, Valid;
    FromStartConcat(a, b);
  }

  /** The replies due to a stream that finishes exactly at its end. */
  lemma RepliesToWhole(serial: seq<byte>, replies: seq<Reply>)
    requires FromStart(serial).status == Finished && FromStart(serial).rest == []
    requires Replied(serial, replies) && 200 * (|replies| - 1) < |serial| <= 200 * |replies|
    ensures forall i :: 0 <= i < |replies| - 1 ==> replies[i] == StatusWord(0x9000)
    ensures replies != [] && replies[|replies| - 1] == Reviewing
  {
    var last := |replies| - 1;
    assert serial[..Cut(|serial|, |replies|)] == serial;
    forall i | 0 <= i < last ensures replies[i] == StatusWord(0x9000) {
      var n := Cut(|serial|, i + 1);
      assert serial == serial[..n] + serial[n..];
      StrictPrefixProcessing(serial[..n], serial[n..]);
    }
  }

  /**
   * Host and device together, for every acceptable transaction and every path: each chunk but the last is answered by
   * 0x9000, the last one starts the review, and the device then holds the path, would sign the hash of all field
   * values (and shows for the transaction id that of all but the chain id), and has kept each supported operation.
   */
  method SignTransaction(device: Device, tx: Transaction, elements: seq<(nat, bool)>) returns (replies: seq<Reply>)
    requires device.Apart() && Acceptable(tx)
    requires 1 <= |elements| <= 10 && forall e <- elements :: e.0 < 0x1_0000_0000
    modifies device.Repr
    ensures replies != [] && replies[|replies| - 1] == Reviewing
    ensures forall i :: 0 <= i < |replies| - 1 ==> replies[i] == StatusWord(0x9000)
    ensures device.pathLength == |elements| <= device.bip32Path.Length
    ensures PathHeld(device.bip32Path[..], elements)
    ensures Reviewable(tx, device.context.View()) && device.hash == Flat(TransactionValues(tx))
  {
    hide FromStart, TransactionValues, EncodeFields, FlatFields, Acceptable, Writable, WordOf, ElementOf;
    var parsed, path := ParseBip32Path(elements);
    TransactionRoundTrip(tx);
    var serial := EncodeTlvTx(tx);
    NotEmpty(tx);
    var outcome;
    outcome, replies := GetSignatureFromNano(device, serial, parsed.value, path);
    RepliesToWhole(serial, replies);
    assert device.bip32Path[..device.pathLength] == path;
    forall k | 0 <= k < |elements|
      ensures WordOf(device.bip32Path[k], elements[k])
      ensures elements[k].0 < 0x8000_0000 ==> ElementOf(device.bip32Path[k]) == elements[k]
    {
      assert device.bip32Path[k] == device.bip32Path[..device.pathLength][k];
    }
  }

  /** What the user is about to review is what was sent. */
  ghost predicate Reviewable(tx: Transaction, s: Snapshot) {
    && Valid(s) && s.state == Done && s.opCount == |tx.operations|
    && s.msgHash == Flat(TransactionValues(tx)) && s.txIdHash == Flat(TransactionValues(tx)[1..])
    && forall i :: 0 <= i < |tx.operations| ==> Recovered(tx, s, i)
  }

  lemma NotEmpty(tx: Transaction)
    requires Acceptable(tx) && Writable(tx)
    ensures FlatFields(EncodeFields(TransactionValues(tx))) != []
  {
    hide FromStart;
    TransactionRoundTrip(tx);
    NothingFinishes();
  }

  lemma NothingFinishes()
    ensures FromStart([]).status == Processing
  {
    InitValid();
  }
}
