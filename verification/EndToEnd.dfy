/** From the transaction the host means to the screens the user reads. */
module EndToEnd {
  import opened Numerals
  import opened Outcomes
  import opened Codec
  import opened CodecRoundTrip
  import opened OperationRoundTrip
  import opened CText
  import opened Assets
  import opened Times
  import opened Lists
  import opened ParseOperations
  import opened Screens
  import opened ScreenCycle
  import StreamSpec
  import StreamChunks
  import StreamFields
  import StreamMeaning
  import opened AlikeReviews
  import opened StreamReview
  import opened LiveReview
  import opened Listings
  import HostEncoding
  import RoundTrip
  import Signing
  import ScreenMachine
  import KeyText

  // ---- every argument is shown as it is meant ----

  /** The parsed operation says what was meant. */
  ghost predicate ShowsOperation(mem: Memory, op: Operation, v: OperationValue) {
    match v
    case TransferOf(t) => op.ATransfer? && ShowsTransfer(mem, op.transfer, t)
    case OrderOf(c) => op.AnOrder? && ShowsLimitOrderCreate(mem, op.order, c)
    case CancelOf(c) => op.ACancel? && ShowsLimitOrderCancel(mem, op.cancel, c)
    case UpdateOf(u) => op.AnUpdate? && ShowsAccountUpdate(mem, op.update, u)
    case UpgradeOf(u) => op.AnUpgrade? && ShowsAccountUpgrade(mem, op.upgrade, u)
    case OtherOf(id, _) => op == if id < 49 then Unsupported else Unknown
  }

  /** A payload that lies in memory as it was serialized is parsed as what was meant. */
  lemma ParsedAsMeant(mem: Memory, at: nat, size: nat, v: OperationValue)
    requires OperationFits(v) && size < UINT32
    requires HostOperationOf(v).id in {0, 1, 2, 6, 8} ==> Window(mem, at, size) == HostOperationOf(v).payload
    ensures var op := OperationIn(ParserOf(HostOperationOf(v).id), Window(mem, at, size), at + size);
      op.Some? && ShowsOperation(mem, op.value, v)
  {
    hide TransferIn, LimitOrderCreateIn, LimitOrderCancelIn, AccountUpdateIn, AccountUpgradeIn, Window, PutTransfer,
         PutLimitOrderCreate, PutLimitOrderCancel, PutAccountUpdate, PutAccountUpgrade, ShowsTransfer,
         ShowsLimitOrderCreate, ShowsLimitOrderCancel, ShowsAccountUpdate, ShowsAccountUpgrade, TransferFits,
         LimitOrderCreateFits, LimitOrderCancelFits, AccountUpdateFits, AccountUpgradeFits;
    match v {
      case TransferOf(t) => TransferRoundTrip(mem, at, size, t, []);
      case OrderOf(c) => LimitOrderCreateRoundTrip(mem, at, size, c, []);
      case CancelOf(c) => LimitOrderCancelRoundTrip(mem, at, size, c, []);
      case UpdateOf(u) => AccountUpdateRoundTrip(mem, at, size, u, []);
      case UpgradeOf(u) => AccountUpgradeRoundTrip(mem, at, size, u, []);
      case OtherOf(_, _) =>
    }
  }

  /** What is printed for part k of an argument. */
  ghost function PartScreen(mem: Memory, op: Operation, arg: nat, k: nat, ripemd: KeyText.Ripemd160): Option<Screen> {
    OperationScreen(mem, op, arg, if 0 < k <= Parts(op, arg) then Parts(op, arg) + 1 - k else 0, ripemd)
  }

  lemma PermissionListed(mem: Memory, who: string, d: Option<Permission>, p: Option<PermissionValue>, k: nat,
                         ripemd: KeyText.Ripemd160)
    requires ShowsOptionalPermission(mem, d, p)
    requires k < |PermissionListing(who, p, ripemd)|
    ensures |PermissionListing(who, p, ripemd)| == if d.Some? then 6 else 1
    ensures PermissionScreen(mem, who, d, if k > 0 then 6 - k else 0, ripemd)
        == Some(PermissionListing(who, p, ripemd)[k])
  {
    hide AccountsOf, KeysOf, Rendered, AccountTexts, KeyTexts, Decimal, Cut, SeekIn, AccountAt, KeyAt, Window;
    if p.Some? {
      ShownLists(mem, d.value, p.value);
    }
  }

  lemma OptionsListed(mem: Memory, d: Option<AccountOptions>, o: Option<OptionsValue>, k: nat,
                      ripemd: KeyText.Ripemd160)
    requires ShowsOptionalOptions(mem, d, o) && (o.Some? ==> |o.value.memoPubkey| == 33)
    requires k < |OptionsListing(o, ripemd)|
    ensures |OptionsListing(o, ripemd)| == if d.Some? then 7 else 1
    ensures OptionsScreen(mem, d, if k > 0 then 7 - k else 0, ripemd) == Some(OptionsListing(o, ripemd)[k])
  {
    hide VotesOf, Rendered, VoteTexts, Decimal, Cut, AccountIdText, KeyText.Text, VoteAt, Window, ShowsExtensions;
    if o.Some? {
      ShownVotes(mem, d.value, o.value);
    }
  }

  /** However long its lists are, every argument of an operation is shown as it was meant. */
  lemma ArgumentListed(mem: Memory, op: Operation, v: OperationValue, arg: nat, k: nat, ripemd: KeyText.Ripemd160)
    requires OperationFits(v) && ShowsOperation(mem, op, v)
    requires arg < |Listing(v, ripemd)| && k < |Listing(v, ripemd)[arg]|
    ensures |Listing(v, ripemd)[arg]| == 1 + Parts(op, arg)
    ensures PartScreen(mem, op, arg, k, ripemd) == Some(Listing(v, ripemd)[arg][k])
  {
    hide PermissionScreen, OptionsScreen, PermissionListing, OptionsListing, AssetText, AccountIdText, Decimal, Cut,
         TimeText, DateOf, ShowsPermission, ShowsOptions, ShowsExtensions, ShowsOptionalMemo, AssetFits,
         PermissionFits, ExtensionsFit;
    if v.UpdateOf? {
      UpdateArgumentListed(mem, op, v, arg, k, ripemd);
    }
  }

  lemma UpdateArgumentListed(mem: Memory, op: Operation, v: OperationValue, arg: nat, k: nat, ripemd: KeyText.Ripemd160)
    requires v.UpdateOf? && OperationFits(v) && ShowsOperation(mem, op, v)
    requires arg < |Listing(v, ripemd)| && k < |Listing(v, ripemd)[arg]|
    ensures |Listing(v, ripemd)[arg]| == 1 + Parts(op, arg)
    ensures PartScreen(mem, op, arg, k, ripemd) == Some(Listing(v, ripemd)[arg][k])
  {
    hide PermissionScreen, OptionsScreen, PermissionListing, OptionsListing, AssetText, AccountIdText, Decimal, Cut,
         TimeText, DateOf, ShowsPermission, ShowsOptions, ShowsExtensions, ShowsOptionalMemo, AssetFits,
         PermissionFits, ExtensionsFit;
    var u, d := v.update, op.update;
    if arg == 1 {
      PermissionListed(mem, "Owner", d.ownerPermission, u.owner, k, ripemd);
    } else if arg == 2 {
      PermissionListed(mem, "Active", d.activePermission, u.active, k, ripemd);
    } else if arg == 3 {
      OptionsListed(mem, d.accountOptions, u.options, k, ripemd);
    }
  }

  lemma ArgumentsListed(v: OperationValue, ripemd: KeyText.Ripemd160)
    requires OperationFits(v)
    ensures |Listing(v, ripemd)| == ArgumentCount(ParserOf(HostOperationOf(v).id))
    ensures forall arg :: 0 <= arg < |Listing(v, ripemd)| ==> |Listing(v, ripemd)[arg]| > 0
  {
    hide PermissionListing, OptionsListing, AssetText, AccountIdText, Decimal, Cut, TimeText, DateOf;
    ListingsNotEmpty(v, ripemd);
  }

  lemma ListingsNotEmpty(v: OperationValue, ripemd: KeyText.Ripemd160)
    ensures v.UpdateOf? ==>
      && |PermissionListing("Owner", v.update.owner, ripemd)| > 0
      && |PermissionListing("Active", v.update.active, ripemd)| > 0
      && |OptionsListing(v.update.options, ripemd)| > 0
  {
  }

  // ---- from the stream to the review ----

  /** The transaction carries these operations. */
  ghost predicate Carries(tx: HostEncoding.Transaction, ops: seq<OperationValue>) {
    && |tx.operations| == |ops|
    && forall i :: 0 <= i < |ops| ==> OperationFits(ops[i]) && tx.operations[i] == HostOperationOf(ops[i])
  }

  /** A finished stream leaves operations that are parsed as what was meant. */
  lemma OperationArrives(tx: HostEncoding.Transaction, ops: seq<OperationValue>, s: StreamSpec.Snapshot, beyond: Memory,
                         sha: Sha256, ripemd: KeyText.Ripemd160, i: nat)
    requires Signing.Reviewable(tx, s) && Carries(tx, ops) && i < |ops|
    ensures var c := ContentOf(s, beyond, sha, ripemd);
      && |c.ids| == |c.offsets| == |ops| && c.ids[i] == HostOperationOf(ops[i]).id
      && From(c, i) <= c.offsets[i] < UINT32
      && Parsed(c, ParserOf(c.ids[i]), i) == Some(OpOf(c, i)) && ShowsOperation(c.mem, OpOf(c, i), ops[i])
  {
    hide HostOperationOf, OperationFits, OperationIn, ShowsOperation, ParserOf, StreamSpec.Valid, StreamMeaning.Slice,
         Window, HostEncoding.TransactionValues, StreamSpec.Supported;
    assert RoundTrip.Recovered(tx, s, i);
    SliceIsWindow(s, beyond, sha, ripemd, i);
    var c := ContentOf(s, beyond, sha, ripemd);
    ParsedAsMeant(c.mem, From(c, i), Size(c, i), ops[i]);
  }

  lemma ReviewWellFormed(tx: HostEncoding.Transaction, ops: seq<OperationValue>, s: StreamSpec.Snapshot, beyond: Memory,
                         sha: Sha256, ripemd: KeyText.Ripemd160)
    requires Signing.Reviewable(tx, s) && Carries(tx, ops) && ops != []
    ensures WellFormed(ContentOf(s, beyond, sha, ripemd))
  {
    hide StreamSpec.Valid, Parsed, ParserOf, ShowsOperation, HostOperationOf, HostEncoding.TransactionValues, From,
         Bounded, OpOf;
    var c := ContentOf(s, beyond, sha, ripemd);
    OperationArrives(tx, ops, s, beyond, sha, ripemd, 0);
    forall i | 0 <= i < |c.ids| ensures From(c, i) <= c.offsets[i] < UINT32 && Showable(c, i) {
      OperationArrives(tx, ops, s, beyond, sha, ripemd, i);
      ShownBounded(c.mem, OpOf(c, i), ops[i]);
    }
  }

  /** A list of which every element was meant has not wrapped around. */
  lemma ShownBounded(mem: Memory, op: Operation, v: OperationValue)
    requires ShowsOperation(mem, op, v)
    ensures Bounded(op)
  {
    hide AccountAt, KeyAt, VoteAt, ShowsExtensions, ShowsTransfer, ShowsLimitOrderCreate, ShowsLimitOrderCancel,
         ShowsAccountUpgrade, Window;
  }

  // ---- the screens in order ----

  /** The screens in the list are in the places of the cycle. */
  lemma {:induction false} ArgumentPlaces(c: Content, v: OperationValue, i: nat, a: nat)
    requires OperationFits(v) && ShowsOperation(c.mem, OpOf(c, i), v) && a <= |Listing(v, c.ripemd)|
    ensures |FlatArguments(Listing(v, c.ripemd), a)| == ArgumentScreens(c, i, a)
  {
    hide Listing, OpOf, OperationFits, ShowsOperation, Parts, FlatArguments, ArgumentScreens;
    FlatArgumentsStep(Listing(v, c.ripemd), a);
    ArgumentScreensStep(c, i, a);
    if a > 0 {
      ArgumentsListed(v, c.ripemd);
      ArgumentPlaces(c, v, i, a - 1);
      ArgumentListed(c.mem, OpOf(c, i), v, a - 1, 0, c.ripemd);
    }
  }

  lemma FlatArgumentsStep(l: seq<seq<Screen>>, a: nat)
    requires a <= |l|
    ensures |FlatArguments(l, a)| == if a == 0 then 0 else |FlatArguments(l, a - 1)| + |l[a - 1]|
  {
  }

  lemma ArgumentScreensStep(c: Content, i: nat, a: nat)
    ensures ArgumentScreens(c, i, a)
         == if a == 0 then 0 else ArgumentScreens(c, i, a - 1) + 1 + Parts(OpOf(c, i), a - 1)
  {
    hide OpOf, Parts;
  }

  /** The content under review is that of these operations. */
  ghost predicate Means(c: Content, ops: seq<OperationValue>) {
    && |c.ids| == |ops|
    && forall i :: 0 <= i < |ops| ==>
      OperationFits(ops[i]) && c.ids[i] == HostOperationOf(ops[i]).id && ShowsOperation(c.mem, OpOf(c, i), ops[i])
  }

  lemma MeansAt(c: Content, ops: seq<OperationValue>, i: nat)
    requires Means(c, ops) && i < |ops|
    ensures OperationFits(ops[i]) && ShowsOperation(c.mem, OpOf(c, i), ops[i])
    ensures |Listing(ops[i], c.ripemd)| == Arguments(c, i) && NameScreen(c, i) == TitleScreen(ops, i)
  {
    hide Listing, OpOf, OperationFits, ShowsOperation, HostOperationOf, ParserOf, ArgumentCount, OperationName,
         Decimal, Cut;
    assert c.ids[i] == HostOperationOf(ops[i]).id;
    ArgumentsListed(ops[i], c.ripemd);
  }

  lemma FlatStep(ops: seq<OperationValue>, n: nat, ripemd: KeyText.Ripemd160)
    requires 0 < n <= |ops|
    ensures var l := Listing(ops[n - 1], ripemd);
      |FlatOperations(ops, n, ripemd)| == |FlatOperations(ops, n - 1, ripemd)| + 1 + |FlatArguments(l, |l|)|
  {
    hide Listing, FlatArguments, TitleScreen;
  }

  lemma ScreensStep(c: Content, n: nat)
    ensures OperationScreens(c, n)
         == if n == 0 then 0 else OperationScreens(c, n - 1) + 1 + ArgumentScreens(c, n - 1, Arguments(c, n - 1))
  {
    hide ArgumentScreens, Arguments;
  }

  lemma NothingFlat(ops: seq<OperationValue>, ripemd: KeyText.Ripemd160)
    ensures FlatOperations(ops, 0, ripemd) == []
  {
  }

  /** One operation takes as many screens in the list as on the cycle. */
  lemma OperationPlace(c: Content, ops: seq<OperationValue>, i: nat)
    requires Means(c, ops) && i < |ops|
    ensures |FlatOperations(ops, i + 1, c.ripemd)| - |FlatOperations(ops, i, c.ripemd)|
         == 1 + ArgumentScreens(c, i, Arguments(c, i))
  {
    hide FlatOperations, Listing, Means, OperationFits, ShowsOperation, FlatArguments, ArgumentScreens, Arguments, OpOf;
    var v := ops[i];
    MeansAt(c, ops, i);
    ArgumentPlaces(c, v, i, |Listing(v, c.ripemd)|);
    FlatStep(ops, i + 1, c.ripemd);
  }

  lemma {:induction false} OperationPlaces(c: Content, ops: seq<OperationValue>, n: nat)
    requires Means(c, ops) && n <= |ops|
    ensures |FlatOperations(ops, n, c.ripemd)| == OperationScreens(c, n)
  {
    hide FlatOperations, OperationScreens, Means, ArgumentScreens, Arguments;
    NothingFlat(ops, c.ripemd);
    ScreensStep(c, n);
    if n > 0 {
      OperationPlaces(c, ops, n - 1);
      OperationPlace(c, ops, n - 1);
    }
  }

  /** The list of all screens holds at each place of the cycle the screen that is expected there. */
  lemma ScreenInPlace(c: Content, ops: seq<OperationValue>, p: Position)
    requires Means(c, ops) && OnCycle(c, p)
    ensures |AllScreens(ops, c.txIdHash, c.ripemd)| == Period(c)
    ensures At(AllScreens(ops, c.txIdHash, c.ripemd), Index(c, p)) == Some(Expected(c, p))
  {
    hide Listing, Means, OpOf, OperationFits, ShowsOperation, TitleScreen, NameScreen, FlatArguments, FlatOperations,
         ArgumentScreens, OperationScreens, Arguments, Parts, OperationScreen, TxIdText;
    MeansLength(c, ops);
    OperationPlaces(c, ops, |ops|);
    IndexBelow(c, p);
    match p {
      case Name(i) =>
        MeansAt(c, ops, i);
        OperationPlaces(c, ops, i);
        FlatOperationAt(ops, i, 0, |ops|, c.ripemd);
      case Argument(i, a, k) =>
        MeansAt(c, ops, i);
        OperationPlaces(c, ops, i);
        ArgumentInPlace(c, ops[i], i, a, k);
        var l := Listing(ops[i], c.ripemd);
        FlatOperationAt(ops, i, 1 + ArgumentScreens(c, i, a) + k, |ops|, c.ripemd);
      case _ =>
    }
  }

  lemma MeansLength(c: Content, ops: seq<OperationValue>)
    requires Means(c, ops)
    ensures |c.ids| == |ops|
  {
  }

  lemma ArgumentInPlace(c: Content, v: OperationValue, i: nat, a: nat, k: nat)
    requires OperationFits(v) && ShowsOperation(c.mem, OpOf(c, i), v)
    requires |Listing(v, c.ripemd)| == Arguments(c, i) && a < Arguments(c, i) && k <= PartsOf(c, i, a)
    ensures var l := Listing(v, c.ripemd);
      At(FlatArguments(l, |l|), ArgumentScreens(c, i, a) + k) == Some(Expected(c, Argument(i, a, k)))
  {
    hide Listing, OpOf, OperationFits, ShowsOperation, FlatArguments, ArgumentScreens, Arguments, Parts,
         OperationScreen;
    var l := Listing(v, c.ripemd);
    ArgumentsListed(v, c.ripemd);
    ArgumentListed(c.mem, OpOf(c, i), v, a, 0, c.ripemd);
    ArgumentListed(c.mem, OpOf(c, i), v, a, k, c.ripemd);
    FlatArgumentAt(l, a, k, |l|);
    ArgumentPlaces(c, v, i, a);
  }

  lemma ContentMeans(tx: HostEncoding.Transaction, ops: seq<OperationValue>, s: StreamSpec.Snapshot, beyond: Memory,
                     sha: Sha256, ripemd: KeyText.Ripemd160)
    requires Signing.Reviewable(tx, s) && Carries(tx, ops) && ops != []
    ensures Means(ContentOf(s, beyond, sha, ripemd), ops)
  {
    hide Signing.Reviewable, Parsed, ParserOf, ShowsOperation, HostOperationOf, OperationFits, OpOf, ContentOf, From;
    var c := ContentOf(s, beyond, sha, ripemd);
    OperationArrives(tx, ops, s, beyond, sha, ripemd, 0);
    forall i | 0 <= i < |ops|
      ensures OperationFits(ops[i]) && c.ids[i] == HostOperationOf(ops[i]).id
      ensures ShowsOperation(c.mem, OpOf(c, i), ops[i])
    {
      OperationArrives(tx, ops, s, beyond, sha, ripemd, i);
    }
  }

  // ---- a whole signing ----

  function HostOperations(ops: seq<OperationValue>): seq<HostEncoding.HostOperation> {
    seq(|ops|, i requires 0 <= i < |ops| => HostOperationOf(ops[i]))
  }

  lemma CarriesThem(tx: HostEncoding.Transaction, ops: seq<OperationValue>)
    requires tx.operations == HostOperations(ops) && forall v <- ops :: OperationFits(v)
    ensures Carries(tx, ops)
  {
    hide OperationFits, HostOperationOf;
  }

  lemma FewOperations(tx: HostEncoding.Transaction, s: StreamSpec.Snapshot)
    requires Signing.Reviewable(tx, s) && HostEncoding.Acceptable(tx)
    ensures s.opCount <= StreamSpec.TX_MAX_OPERATIONS && tx.operations != []
    ensures s.txIdHash == StreamChunks.Flat(HostEncoding.TransactionValues(tx)[1..])
  {
    hide StreamSpec.Valid, HostEncoding.TransactionValues;
  }

  /**
   * The whole way, for every transaction of one to four operations that fits the device: the host serializes it,
   * sends it in chunks, and the device, having accepted the last chunk, shows over and over the list of screens that
   * the operations call for, each exactly as it was meant, in that order and without an end, read at every tick from
   * the live content, whatever idle blocks arrive between the ticks. What a confirmation would sign is then still the
   * transaction, with the words of the path that was meant, and with as many of them if no first block was refused.
   */
  method SignAndReview(device: Signing.Device, tx: HostEncoding.Transaction, ops: seq<OperationValue>,
                       elements: seq<(nat, bool)>, beyond: Memory, sha: Sha256, ripemd: KeyText.Ripemd160,
                       events: seq<Event>)
    returns (replies: seq<Signing.Reply>, screens: seq<Screen>)
    requires device.Apart() && HostEncoding.Acceptable(tx)
    requires tx.operations == HostOperations(ops) && forall v <- ops :: OperationFits(v)
    requires 1 <= |elements| <= 10 && forall e <- elements :: e.0 < 0x1_0000_0000
    requires AllIdle(events)
    modifies device.Repr
    ensures replies != [] && replies[|replies| - 1] == Signing.Reviewing
    ensures forall i :: 0 <= i < |replies| - 1 ==> replies[i] == Signing.StatusWord(0x9000)
    ensures device.hash == StreamChunks.Flat(HostEncoding.TransactionValues(tx))
    ensures Signing.PathHeld(device.bip32Path[..], elements)
    ensures device.pathLength == |elements| <==> forall b <- BlocksOf(events) :: !Signing.Refused(b)
    ensures |screens| == Ticks(events) + 1
    ensures var all := AllScreens(ops, sha(StreamChunks.Flat(HostEncoding.TransactionValues(tx)[1..])), ripemd);
      forall j: nat :: j <= Ticks(events) ==> screens[j] == all[j % |all|]
  {
    hide HostEncoding.Acceptable, HostEncoding.TransactionValues, Signing.Reviewable, OperationFits, HostOperations,
         AllScreens, WellFormed, Stands, Means, Expected, OnCycle, Walk, Carries, ContentOf, Period, Index,
         Signing.PathHeld, Signing.Refused, Signing.LengthAfter;
    replies := Signing.SignTransaction(device, tx, elements);
    ghost var s := device.context.View();
    CarriesThem(tx, ops);
    FewOperations(tx, s);
    CarriesSome(tx, ops);
    ReviewWellFormed(tx, ops, s, beyond, sha, ripemd);
    ContentMeans(tx, ops, s, beyond, sha, ripemd);
    FinishedLive(tx, device);
    var content := TakeContent(device.context, beyond, sha, ripemd);
    ContentHashes(s, beyond, sha, ripemd);
    var review := new ScreenMachine.Review(content);
    screens := WatchLive(device, review, events, beyond, sha, ripemd);
    Signing.LengthAsOpened(|elements|, BlocksOf(events));
    forall j: nat | j <= Ticks(events)
      ensures InTurn(AllScreens(ops, content.txIdHash, ripemd), j, screens[j])
    {
      WalkedScreen(content, ops, j);
    }
  }

  /** The screen that is due after j others, going round the list. */
  predicate InTurn(all: seq<Screen>, j: nat, s: Screen) {
    all != [] && s == all[j % |all|]
  }

  lemma WalkedScreen(c: Content, ops: seq<OperationValue>, j: nat)
    requires WellFormed(c) && Means(c, ops)
    ensures InTurn(AllScreens(ops, c.txIdHash, c.ripemd), j, Expected(c, Walk(c, j)))
  {
    hide AllScreens, WellFormed, Means, Expected, OnCycle, Walk, Period, Index;
    WalkIndex(c, j);
    ScreenInPlace(c, ops, Walk(c, j));
  }

  lemma FinishedLive(tx: HostEncoding.Transaction, device: Signing.Device)
    requires Signing.Reviewable(tx, device.context.View())
    requires device.hash == StreamChunks.Flat(HostEncoding.TransactionValues(tx))
    ensures UnderReview(LiveOf(device))
  {
    hide StreamSpec.Valid, HostEncoding.TransactionValues;
  }

  // ---- any host ----

  function Continuing(chunks: seq<seq<byte>>): seq<Signing.Block> {
    seq(|chunks|, i requires 0 <= i < |chunks| => Signing.Block(0x80, 0, chunks[i]))
  }

  lemma {:induction false} ContinuingChunks(chunks: seq<seq<byte>>)
    ensures Signing.ChunksOf(Continuing(chunks)) == chunks
  {
    if chunks != [] {
      ContinuingChunks(chunks[1..]);
      assert Continuing(chunks)[1..] == Continuing(chunks[1..]);
      assert chunks == [chunks[0]] + chunks[1..];
    }
  }

  /** A first block with a path that the device takes, and behind it the first chunk. */
  predicate OpensWith(block: seq<byte>, chunk: seq<byte>) {
    && block != [] && 1 <= block[0] <= 10 && |block| >= 1 + 4 * block[0]
    && chunk == block[1 + 4 * block[0]..]
  }

  /**
   * Whatever host it is, and however it cuts its stream, as long as no number of more than twelve bytes is copied
   * past the end of sizeBuffer (the stream would not be Finished then): if the device ends by asking for a
   * confirmation, the stream was a sequence of fields, and what a confirmation would sign is the hash of their
   * values; and if what they hold can be shown, the screens are those that these values call for, in order and over
   * again, read at every tick from the live content, whatever idle blocks arrive between the ticks.
   */
  method ReceiveAndReview(device: Signing.Device, block: seq<byte>, chunks: seq<seq<byte>>, beyond: Memory, sha: Sha256,
                          ripemd: KeyText.Ripemd160, events: seq<Event>)
    returns (screens: seq<Screen>, ghost fs: seq<StreamFields.Field>)
    requires device.Apart() && chunks != [] && OpensWith(block, chunks[0])
    requires StreamChunks.Fed(chunks).status == StreamSpec.Finished
    requires WellFormed(ContentOf(StreamChunks.Fed(chunks).snap, beyond, sha, ripemd)) && AllIdle(events)
    modifies device.Repr
    ensures device.context.View() == StreamChunks.Fed(chunks).snap && BeganWith(chunks, fs)
    ensures device.hash == StreamChunks.Flat(StreamFields.Values(fs))
    ensures |screens| == Ticks(events) + 1
    ensures var d := ReviewOf(StreamFields.Values(fs), sha, ripemd);
      forall j: nat :: j <= Ticks(events) ==> At(screens, j) == Some(Expected(d, Walk(d, j)))
  {
    hide StreamChunks.Fed, StreamChunks.Feed, StreamSpec.Run, StreamSpec.Valid, WellFormed, Stands, ContentOf,
         BeganWith, ReviewOf, Expected, Walk, ShownAs, Alike, Signing.ChunksOf, Signing.Continues, Signing.Words,
         StreamFields.Values;
    ghost var s := StreamChunks.Fed(chunks).snap;
    fs := FinishedReview(chunks, beyond, sha, ripemd);
    FinishedDone(chunks);
    Receive(device, block, chunks);
    Began(chunks, fs);
    var content := TakeContent(device.context, beyond, sha, ripemd);
    ghost var d := ReviewOf(StreamFields.Values(fs), sha, ripemd);
    var review := new ScreenMachine.Review(content);
    screens := WatchLive(device, review, events, beyond, sha, ripemd);
    forall j: nat | j <= Ticks(events) ensures At(screens, j) == Some(Expected(d, Walk(d, j))) {
      AlikeWalk(content, d, j);
    }
  }

  lemma FinishedDone(chunks: seq<seq<byte>>)
    requires StreamChunks.Fed(chunks).status == StreamSpec.Finished
    ensures var s := StreamChunks.Fed(chunks).snap;
      StreamSpec.Valid(s) && s.state == StreamSpec.Done && s.opCount <= StreamSpec.TX_MAX_OPERATIONS
  {
    hide StreamSpec.Run, StreamChunks.Feed;
    StreamSpec.InitValid();
    StreamChunks.FedIsFromStart(chunks);
  }

  lemma Began(chunks: seq<seq<byte>>, fs: seq<StreamFields.Field>)
    requires BeganWith(chunks, fs)
    ensures StreamChunks.Fed(chunks).snap.msgHash == StreamChunks.Flat(StreamFields.Values(fs))
  {
    hide StreamChunks.Fed;
  }

  /** A first block, and the other chunks in blocks of their own. */
  method Receive(device: Signing.Device, block: seq<byte>, chunks: seq<seq<byte>>)
    requires device.Apart() && chunks != [] && OpensWith(block, chunks[0])
    requires Signing.Going(StreamChunks.Fed(chunks).status)
    modifies device.Repr
    ensures device.context.View() == StreamChunks.Fed(chunks).snap && Signing.HashSettled(device)
    ensures device.pathLength == block[0]
    ensures device.bip32Path[..device.pathLength] == Signing.Words(block[1..], block[0])
  {
    hide StreamChunks.Feed, StreamSpec.Run, StreamSpec.Valid, Signing.ChunksOf, Signing.Words, Signing.Continues;
    StreamSpec.InitValid();
    assert chunks == [chunks[0]] + chunks[1..];
    Signing.FeedStep(StreamSpec.Init(), chunks[0], chunks[1..]);
    ContinuingChunks(chunks[1..]);
    var reply := device.HandleSign(0x00, 0, block);
    Signing.Continued(StreamSpec.Init(), chunks[0], reply, device.context.View());
    Signing.DoneIsFinished(StreamSpec.Init(), chunks[0]);
    ghost var path := device.bip32Path[..];
    var _ := Signing.ServeMore(device, Continuing(chunks[1..]));
    NoneRefused(block[0], chunks[1..]);
    assert device.bip32Path[..device.pathLength] == path[..device.pathLength];
  }

  lemma NoneRefused(n: nat, chunks: seq<seq<byte>>)
    requires 1 <= n <= 10
    ensures Signing.LengthAfter(n, Continuing(chunks)) == n
  {
    Signing.LengthAsOpened(n, Continuing(chunks));
  }

  lemma CarriesSome(tx: HostEncoding.Transaction, ops: seq<OperationValue>)
    requires Carries(tx, ops) && tx.operations != []
    ensures ops != []
  {
  }

  lemma ContentHashes(s: StreamSpec.Snapshot, beyond: Memory, sha: Sha256, ripemd: KeyText.Ripemd160)
    ensures var c := ContentOf(s, beyond, sha, ripemd); c.txIdHash == sha(s.txIdHash) && c.ripemd == ripemd
  {
  }
}
