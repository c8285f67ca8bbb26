/** Whoever sent it, and in whatever chunks: what is reviewed of a finished stream is decided by the values in it. */
module StreamReview {
  import opened Numerals
  import opened Codec
  import opened Screens
  import opened ScreenCycle
  import opened AlikeReviews
  import opened StreamSpec
  import opened StreamChunks
  import opened StreamFields
  import opened StreamMeaning
  import opened Finishing
  import KeyText

  type Hash = h: seq<byte> | |h| == 32 witness Zeros(32)

  /** SHA-256 as an arbitrary function to 32 bytes. */
  type Sha256 = seq<byte> -> Hash

  /** Memory that starts with the cache and goes on with anything. */
  function MemoryOf(cache: seq<byte>, beyond: Memory): Memory {
    (at: nat) => if at < |cache| then cache[at] else beyond(at)
  }

  /** What is left for the display when a stream has finished. */
  function ContentOf(s: Snapshot, beyond: Memory, sha: Sha256, ripemd: KeyText.Ripemd160): Content {
    if s.opCount <= |s.opIds| && s.opCount <= |s.offsets| then
      Content(s.opIds[..s.opCount], s.offsets[..s.opCount], MemoryOf(s.cache, beyond), sha(s.txIdHash), ripemd)
    else Content([], [], MemoryOf(s.cache, beyond), sha(s.txIdHash), ripemd)
  }

  lemma SliceIsWindow(s: Snapshot, beyond: Memory, sha: Sha256, ripemd: KeyText.Ripemd160, i: nat)
    requires Valid(s) && s.state == Done && i < s.opCount
    ensures var c := ContentOf(s, beyond, sha, ripemd);
      && From(c, i) <= c.offsets[i] <= CACHE_SIZE && |c.ids| == |c.offsets| == s.opCount
      && Screens.Payload(c, i) == Slice(s, i)
  {
    assert Start(s.offsets, i) <= s.offsets[i] <= CACHE_SIZE;
  }

  // ---- the review that the values of a stream call for ----

  /** The payloads that are kept, one behind the other. */
  function KeptBytes(vs: seq<seq<byte>>, n: nat): seq<byte> {
    if n == 0 then [] else KeptBytes(vs, n - 1) + KeptPayload(vs, n - 1)
  }

  /** The payload of a supported operation; nothing of any other. */
  function KeptPayload(vs: seq<seq<byte>>, i: nat): seq<byte> {
    if 6 + 2 * i < |vs| && Supported(Count(vs[5 + 2 * i])) then vs[6 + 2 * i] else []
  }

  function IdIn(vs: seq<seq<byte>>, i: nat): nat {
    if 5 + 2 * i < |vs| then Count(vs[5 + 2 * i]) else 0
  }

  /** The content for the display, from the values alone. */
  function ReviewOf(vs: seq<seq<byte>>, sha: Sha256, ripemd: KeyText.Ripemd160): Content {
    var n := Declared(vs);
    Content(seq(n, i requires 0 <= i < n => IdIn(vs, i)), seq(n, i requires 0 <= i < n => CacheUse(vs, i + 1)),
            MemoryOf(KeptBytes(vs, n), (at: nat) => 0), sha(if vs == [] then [] else Flat(vs[1..])), ripemd)
  }

  lemma {:induction false} KeptBytesLength(vs: seq<seq<byte>>, n: nat)
    ensures |KeptBytes(vs, n)| == CacheUse(vs, n)
  {
    hide Count, Supported;
    if n > 0 {
      KeptBytesLength(vs, n - 1);
    }
  }

  lemma {:induction false} KeptBytesAt(vs: seq<seq<byte>>, i: nat, n: nat)
    requires i < n
    ensures CacheUse(vs, i) <= CacheUse(vs, i + 1) <= CacheUse(vs, n) == |KeptBytes(vs, n)|
    ensures KeptBytes(vs, n)[CacheUse(vs, i)..CacheUse(vs, i + 1)] == KeptPayload(vs, i)
  {
    hide KeptPayload, KeptLength;
    KeptBytesLength(vs, n);
    KeptBytesLength(vs, n - 1);
    if i < n - 1 {
      KeptBytesAt(vs, i, n - 1);
      SliceFront(KeptBytes(vs, n - 1), KeptPayload(vs, n - 1), CacheUse(vs, i), CacheUse(vs, i + 1));
    }
  }

  lemma SliceFront(a: seq<byte>, b: seq<byte>, lo: nat, hi: nat)
    requires lo <= hi <= |a|
    ensures (a + b)[lo..hi] == a[lo..hi]
  {
  }

  /** In the review called for, every operation has its payload. */
  lemma ReviewPayload(vs: seq<seq<byte>>, sha: Sha256, ripemd: KeyText.Ripemd160, i: nat)
    requires i < Declared(vs)
    ensures Screens.Payload(ReviewOf(vs, sha, ripemd), i) == KeptPayload(vs, i)
  {
    hide Declared, KeptPayload, KeptBytes, CacheUse, IdIn;
    var c, n := ReviewOf(vs, sha, ripemd), Declared(vs);
    KeptBytesAt(vs, i, n);
    NoneYet(vs);
    assert From(c, i) == CacheUse(vs, i) && Size(c, i) == CacheUse(vs, i + 1) - CacheUse(vs, i);
  }

  lemma NoneYet(vs: seq<seq<byte>>)
    ensures CacheUse(vs, 0) == 0
  {
  }

  /**
   * What a finished stream leaves for the display is what its values call for, up to the memory behind the payloads.
   */
  lemma ContentAsRead(s: Snapshot, vs: seq<seq<byte>>, beyond: Memory, sha: Sha256, ripemd: KeyText.Ripemd160)
    requires Agrees(s, vs) && s.state == Done
    ensures Alike(ContentOf(s, beyond, sha, ripemd), ReviewOf(vs, sha, ripemd))
  {
    hide Agrees, Screens.Payload, CacheUse, KeptPayload, IdIn, KeptBytes;
    var c, d := ContentOf(s, beyond, sha, ripemd), ReviewOf(vs, sha, ripemd);
    DoneParts(s, vs);
    forall i | 0 <= i < s.opCount
      ensures c.ids[i] == d.ids[i] && c.offsets[i] == d.offsets[i] && Screens.Payload(c, i) == Screens.Payload(d, i)
    {
      DoneOperation(s, vs, i);
      SliceIsWindow(s, beyond, sha, ripemd, i);
      ReviewPayload(vs, sha, ripemd, i);
    }
  }

  lemma DoneParts(s: Snapshot, vs: seq<seq<byte>>)
    requires Agrees(s, vs) && s.state == Done
    ensures Valid(s) && vs != [] && s.txIdHash == Flat(vs[1..]) && s.opCount == Declared(vs)
    ensures s.opCount <= |s.opIds| && s.opCount <= |s.offsets|
  {
    hide Count, Readable, OperationsAgree;
  }

  lemma DoneOperation(s: Snapshot, vs: seq<seq<byte>>, i: nat)
    requires Agrees(s, vs) && s.state == Done && i < s.opCount
    ensures i < |s.opIds| && s.opIds[i] == IdIn(vs, i) && i < |s.offsets| && s.offsets[i] == CacheUse(vs, i + 1)
    ensures Slice(s, i) == KeptPayload(vs, i)
  {
    hide Count, Readable, Slice, Supported;
    assert IdAgrees(s, vs, i) && PayloadAgrees(s, vs, i);
    StartIsSum(s, vs, vs, i + 1);
  }

  // ---- any finished stream ----

  /** The payload of operation i can be decoded, and all its lists lie in it. */
  predicate PayloadShowable(vs: seq<seq<byte>>, i: nat) {
    match OperationIn(ParserOf(IdIn(vs, i)), KeptPayload(vs, i), CacheUse(vs, i + 1))
    case None => false
    case Some(op) => Bounded(op)
  }

  /**
   * The review that the values call for can be shown exactly if this is so for every operation whose payload is
   * kept.
   */
  lemma ShowableExactly(vs: seq<seq<byte>>, sha: Sha256, ripemd: KeyText.Ripemd160)
    requires Finishes(vs)
    ensures Screens.WellFormed(ReviewOf(vs, sha, ripemd)) <==>
      forall i :: 0 <= i < Declared(vs) && Supported(IdIn(vs, i)) ==> PayloadShowable(vs, i)
  {
    hide Finishes, CacheUse, KeptPayload, KeptBytes, IdIn, PayloadShowable, Showable, Supported, From;
    var c := ReviewOf(vs, sha, ripemd);
    FinishesDeclared(vs);
    forall i | 0 <= i < Declared(vs)
      ensures From(c, i) <= c.offsets[i] < UINT32 && (Showable(c, i) <==> PayloadShowable(vs, i))
      ensures !Supported(IdIn(vs, i)) ==> PayloadShowable(vs, i)
    {
      ReviewOffsets(vs, sha, ripemd, i);
      OperationShowable(vs, sha, ripemd, i);
      NotKeptShowable(vs, i);
    }
  }

  lemma FinishesDeclared(vs: seq<seq<byte>>)
    requires Finishes(vs)
    ensures 1 <= Declared(vs) && CacheUse(vs, Declared(vs)) <= CACHE_SIZE
  {
    hide Count, Readable, CacheUse;
  }

  lemma ReviewOffsets(vs: seq<seq<byte>>, sha: Sha256, ripemd: KeyText.Ripemd160, i: nat)
    requires i < Declared(vs) && CacheUse(vs, Declared(vs)) <= CACHE_SIZE
    ensures var c := ReviewOf(vs, sha, ripemd);
      && |c.offsets| == Declared(vs) && From(c, i) <= c.offsets[i] < UINT32
      && From(c, i) + Size(c, i) == CacheUse(vs, i + 1) && IdOf(c, i) == IdIn(vs, i)
  {
    hide Declared, KeptBytes, CacheUse, IdIn;
    CacheUseMono(vs, i, i + 1);
    CacheUseMono(vs, i + 1, Declared(vs));
    NoneYet(vs);
  }

  lemma OperationShowable(vs: seq<seq<byte>>, sha: Sha256, ripemd: KeyText.Ripemd160, i: nat)
    requires i < Declared(vs) && CacheUse(vs, Declared(vs)) <= CACHE_SIZE
    ensures Showable(ReviewOf(vs, sha, ripemd), i) <==> PayloadShowable(vs, i)
  {
    hide Declared, KeptPayload, CacheUse, IdIn, ReviewOf, OperationIn, Bounded, Screens.Payload, From, Size, IdOf;
    ReviewOffsets(vs, sha, ripemd, i);
    ReviewPayload(vs, sha, ripemd, i);
  }

  lemma NotKeptShowable(vs: seq<seq<byte>>, i: nat)
    ensures !Supported(IdIn(vs, i)) ==> PayloadShowable(vs, i)
  {
    hide CacheUse, KeptPayload, IdIn;
  }

  /**
   * A session that finished began with these fields, which make up an acceptable transaction, and hashed their
   * values.
   */
  ghost predicate BeganWith(chunks: seq<seq<byte>>, fs: seq<Field>) {
    && AllWellFormed(fs) && FlatFields(fs) <= Flat(chunks) && Finishes(Values(fs))
    && Fed(chunks).snap.msgHash == Flat(Values(fs)) && Fed(chunks).snap.txIdHash == Flat(Values(fs)[1..])
  }

  /** Whenever the review of c starts, its display shows the screens of d, round after round. */
  ghost predicate ShownAs(c: Content, d: Content) {
    forall v, k: nat :: Stands(c, v, Confirm) ==>
        Rounds(c, v, k).Some? && Seen(Rounds(c, v, k).value) == Expected(d, Walk(d, k))
  }

  /**
   * Every stream that finishes, in whatever chunks it came: it began with the fields of an acceptable transaction;
   * the ids and payloads left for the display are those of the values that went into the hash to be signed; and if
   * every supported payload can be decoded with its lists inside, the display shows, round after round, the screens
   * that these values call for.
   */
  lemma FinishedReview(chunks: seq<seq<byte>>, beyond: Memory, sha: Sha256,
                       ripemd: KeyText.Ripemd160) returns (fs: seq<Field>)
    requires Fed(chunks).status == Finished
    ensures BeganWith(chunks, fs)
    ensures var c, d := ContentOf(Fed(chunks).snap, beyond, sha, ripemd), ReviewOf(Values(fs), sha, ripemd);
      && Alike(c, d) && (Screens.WellFormed(c) <==> Screens.WellFormed(d)) && (Screens.WellFormed(d) ==> ShownAs(c, d))
  {
    hide Run, Agrees, FlatFields, Valid, Finishes, Alike, ContentOf, ReviewOf, Screens.WellFormed, ShownAs,
         AllWellFormed, Values, Fed;
    InitAgrees();
    InitValid();
    FedIsFromStart(chunks);
    var s := Fed(chunks).snap;
    fs := FinishedRunAgrees(Init(), [], Flat(chunks));
    var vs := Values(fs);
    assert [] + vs == vs;
    AgreesTaken(s, vs);
    Absorbed(s, vs);
    ContentAsRead(s, vs, beyond, sha, ripemd);
    AlikeShown(ContentOf(s, beyond, sha, ripemd), ReviewOf(vs, sha, ripemd));
  }

  lemma AlikeShown(c: Content, d: Content)
    requires Alike(c, d)
    ensures Screens.WellFormed(c) <==> Screens.WellFormed(d)
    ensures Screens.WellFormed(d) ==> ShownAs(c, d)
  {
    hide Alike, Screens.WellFormed, Stands, Rounds, Seen, Expected, Walk;
    AlikeWellFormed(c, d);
    forall v, k: nat | Screens.WellFormed(d) && Stands(c, v, Confirm)
      ensures Rounds(c, v, k).Some? && Seen(Rounds(c, v, k).value) == Expected(d, Walk(d, k))
    {
      ReviewCycles(c, v, k);
      AlikeWalk(c, d, k);
    }
  }

  lemma Absorbed(s: Snapshot, vs: seq<seq<byte>>)
    requires Agrees(s, vs) && s.state == Done
    ensures vs != [] && s.msgHash == Flat(vs) && s.txIdHash == Flat(vs[1..])
  {
    hide OperationsAgree, Count, Readable;
  }
}
