/** Whole operations survive the trip through their serialization. */
module OperationRoundTrip {
  import opened Numerals
  import opened Outcomes
  import opened Codec
  import opened CodecRoundTrip
  import Varint

  // ---- optional parts ----

  function PutOptionalPermission(o: Option<PermissionValue>, rest: seq<byte>): seq<byte> {
    match o
    case None => PutBool(false, rest)
    case Some(p) => PutBool(true, PutPermission(p, rest))
  }

  predicate OptionalPermissionFits(o: Option<PermissionValue>) {
    o.Some? ==> PermissionFits(o.value)
  }

  function DecodedOptionalPermission(o: Option<PermissionValue>, rest: seq<byte>, end: nat): Option<Permission> {
    match o
    case None => None
    case Some(p) => Some(Decoded(p, rest, end))
  }

  ghost predicate ShowsOptionalPermission(mem: Memory, d: Option<Permission>, o: Option<PermissionValue>) {
    match o
    case None => d.None?
    case Some(p) => d.Some? && ShowsPermission(mem, d.value, p)
  }

  lemma OptionalPermissionBack(mem: Memory, o: Option<PermissionValue>, rest: seq<byte>, end: nat)
    requires OptionalPermissionFits(o)
    requires var w := PutOptionalPermission(o, rest); |w| < UINT32 && Holds(mem, end, w)
    ensures var d := DecodedOptionalPermission(o, rest, end);
      && OptionalPermissionIn(PutOptionalPermission(o, rest), end) == Some((d, rest))
      && ShowsOptionalPermission(mem, d, o) && Holds(mem, end, rest) && |rest| < UINT32
  {
    hide PutPermission, PermissionFits, Decoded, ShowsPermission, Holds, PermissionIn;
    var w := PutOptionalPermission(o, rest);
    match o {
      case None =>
        BoolBack(mem, end, false, rest);
      case Some(p) =>
        BoolBack(mem, end, true, PutPermission(p, rest));
        PermissionEnds(p, rest);
        PermissionBack(p, rest, end);
        PermissionShown(mem, end, p, rest);
    }
  }

  lemma BoolBack(mem: Memory, end: nat, b: bool, rest: seq<byte>)
    requires Holds(mem, end, PutBool(b, rest))
    ensures BoolIn(PutBool(b, rest)) == Some((b, rest)) && Holds(mem, end, rest)
    ensures |PutBool(b, rest)| == 1 + |rest|
  {
    JoinEnds([if b then 1 else 0], rest);
    HoldsTail(mem, end, PutBool(b, rest), rest);
  }

  function PutOptionalOptions(o: Option<OptionsValue>, rest: seq<byte>): seq<byte> {
    match o
    case None => PutBool(false, rest)
    case Some(v) => PutBool(true, PutOptions(v, rest))
  }

  predicate OptionalOptionsFit(o: Option<OptionsValue>) {
    o.Some? ==> OptionsFit(o.value)
  }

  function DecodedOptionalOptions(o: Option<OptionsValue>, rest: seq<byte>, end: nat): Option<AccountOptions> {
    match o
    case None => None
    case Some(v) => Some(DecodedOptions(v, rest, end))
  }

  ghost predicate ShowsOptionalOptions(mem: Memory, d: Option<AccountOptions>, o: Option<OptionsValue>) {
    match o
    case None => d.None?
    case Some(v) => d.Some? && ShowsOptions(mem, d.value, v)
  }

  /** The extension bytes that the options reader leaves in the window. */
  function Unread(o: Option<OptionsValue>): seq<byte> {
    if o.Some? then o.value.extensions.data else []
  }

  lemma OptionalOptionsBack(mem: Memory, o: Option<OptionsValue>, rest: seq<byte>, end: nat)
    requires OptionalOptionsFit(o)
    requires var w := PutOptionalOptions(o, rest); |w| < UINT32 && Holds(mem, end, w)
    ensures var d := DecodedOptionalOptions(o, rest, end);
      && OptionalAccountOptionsIn(PutOptionalOptions(o, rest), end) == Some((d, Unread(o) + rest))
      && ShowsOptionalOptions(mem, d, o) && Holds(mem, end, rest)
  {
    hide PutOptions, OptionsFit, DecodedOptions, ShowsOptions, Holds, AccountOptionsIn;
    match o {
      case None =>
        BoolBack(mem, end, false, rest);
        assert [] + rest == rest;
      case Some(v) =>
        BoolBack(mem, end, true, PutOptions(v, rest));
        OptionsBack(v, rest, end);
        OptionsShown(mem, end, v, rest);
    }
  }

  // ---- account update ----

  datatype AccountUpdateValue = AccountUpdateValue(
    feeAsset: Asset, accountId: nat, owner: Option<PermissionValue>, active: Option<PermissionValue>,
    options: Option<OptionsValue>, extensions: ExtensionsValue)

  predicate AccountUpdateFits(u: AccountUpdateValue) {
    && AssetFits(u.feeAsset) && u.accountId < 0x1_0000_0000_0000
    && OptionalPermissionFits(u.owner) && OptionalPermissionFits(u.active) && OptionalOptionsFit(u.options)
    && ExtensionsFit(u.extensions)
  }

  function PutAccountUpdate(u: AccountUpdateValue, rest: seq<byte>): seq<byte> {
    PutAsset(u.feeAsset, PutVarint(u.accountId, PutAuthorities(u, rest)))
  }

  function PutAuthorities(u: AccountUpdateValue, rest: seq<byte>): seq<byte> {
    PutOptionalPermission(u.owner, PutOptionalPermission(u.active, PutSettings(u, rest)))
  }

  function PutSettings(u: AccountUpdateValue, rest: seq<byte>): seq<byte> {
    PutOptionalOptions(u.options, PutExtensions(u.extensions, rest))
  }

  /** The options carry extensions, so what follows them cannot be found. */
  predicate Misaligned(u: AccountUpdateValue) {
    u.options.Some? && u.options.value.extensions.count > 0
  }

  /** What the reader leaves: extensions it does not interpret, and everything behind them. */
  function Leftover(u: AccountUpdateValue, rest: seq<byte>): seq<byte> {
    if Misaligned(u) then Unread(u.options) + PutExtensions(u.extensions, rest) else u.extensions.data + rest
  }

  /** The decoded operation says what u says. */
  ghost predicate ShowsAccountUpdate(mem: Memory, d: AccountUpdate, u: AccountUpdateValue) {
    && d.feeAsset == u.feeAsset && d.accountId == u.accountId
    && ShowsOptionalPermission(mem, d.ownerPermission, u.owner)
    && ShowsOptionalPermission(mem, d.activePermission, u.active)
    && ShowsOptionalOptions(mem, d.accountOptions, u.options)
    && (d.containsUninterpretable <==> Misaligned(u) || u.extensions.count > 0)
    && (if Misaligned(u) then d.extensions.None?
        else d.extensions.Some? && ShowsExtensions(mem, d.extensions.value, u.extensions))
  }

  lemma AssetEnds(a: Asset, rest: seq<byte>)
    ensures EndsIn(PutAsset(a, rest), rest)
  {
    VarintEnds(a.instanceId, rest);
    LittleEnds(a.amount, 8, PutVarint(a.instanceId, rest));
    EndsInTrans(PutAsset(a, rest), PutVarint(a.instanceId, rest), rest);
  }

  /** An id behind something that ends in it. */
  lemma HeldId(mem: Memory, end: nat, v: nat, rest: seq<byte>)
    requires v < 0x1_0000_0000_0000 && Holds(mem, end, PutVarint(v, rest)) && |PutVarint(v, rest)| < UINT32
    ensures Varint48In(PutVarint(v, rest)) == Some((v, rest)) && Holds(mem, end, rest) && |rest| < UINT32
  {
    Varint48Back(v, rest);
    VarintEnds(v, rest);
    HoldsTail(mem, end, PutVarint(v, rest), rest);
  }

  lemma HeldAsset(mem: Memory, end: nat, a: Asset, rest: seq<byte>)
    requires AssetFits(a) && Holds(mem, end, PutAsset(a, rest)) && |PutAsset(a, rest)| < UINT32
    ensures AssetIn(PutAsset(a, rest)) == Some((a, rest)) && Holds(mem, end, rest) && |rest| < UINT32
  {
    hide PutAsset, Holds, AssetIn;
    AssetBack(a, rest);
    AssetEnds(a, rest);
    HoldsTail(mem, end, PutAsset(a, rest), rest);
  }

  lemma HeldExtensions(mem: Memory, end: nat, e: ExtensionsValue, rest: seq<byte>)
    requires ExtensionsFit(e) && Holds(mem, end, PutExtensions(e, rest))
    ensures ExtensionsIn(PutExtensions(e, rest), end) == Some((DecodedExtensions(e, rest, end), e.data + rest))
    ensures ShowsExtensions(mem, DecodedExtensions(e, rest, end), e)
  {
    ExtensionsBack(e, rest, end);
    ExtensionsShown(mem, end, e, rest);
  }

  /** What comes behind the permissions. */
  lemma SettingsBack(mem: Memory, end: nat, u: AccountUpdateValue, rest: seq<byte>)
    requires AccountUpdateFits(u) && Holds(mem, end, PutSettings(u, rest)) && |PutSettings(u, rest)| < UINT32
    ensures var options := OptionalAccountOptionsIn(PutSettings(u, rest), end);
      && options.Some? && ShowsOptionalOptions(mem, options.value.0, u.options)
      && (Misaligned(u) <==> options.value.0.Some? && options.value.0.value.extensions.count > 0)
      && (Misaligned(u) ==> options.value.1 == Leftover(u, rest))
      && (!Misaligned(u) ==>
        var e := ExtensionsIn(options.value.1, end);
        && e.Some? && ShowsExtensions(mem, e.value.0, u.extensions) && e.value.0.count == u.extensions.count
        && e.value.1 == Leftover(u, rest))
  {
    hide PutExtensions, PutOptionalOptions, Holds, ShowsOptionalOptions, ShowsExtensions, OptionalAccountOptionsIn,
         ExtensionsIn;
    var e := PutExtensions(u.extensions, rest);
    OptionalOptionsBack(mem, u.options, e, end);
    HeldExtensions(mem, end, u.extensions, rest);
    if !Misaligned(u) {
      assert Unread(u.options) + e == e;
    }
  }

  /**
   * Every account update, with or without each of its parts and with lists of any length, is decoded to what it
   * says; its encoding is consumed up to the first extensions it carries, and wholly if it carries none.
   */
  lemma AccountUpdateRoundTrip(mem: Memory, at: nat, size: nat, u: AccountUpdateValue, rest: seq<byte>)
    requires AccountUpdateFits(u) && size < UINT32 && Window(mem, at, size) == PutAccountUpdate(u, rest)
    ensures var r := AccountUpdateIn(Window(mem, at, size), at + size);
      r.Some? && ShowsAccountUpdate(mem, r.value.0, u) && r.value.1 == Leftover(u, rest)
    ensures !Misaligned(u) && u.extensions.count == 0 ==> Leftover(u, rest) == rest
  {
    hide PutAsset, PutVarint, PutOptionalPermission, PutSettings, Holds, AssetIn, Varint48In, OptionalPermissionIn,
         OptionalAccountOptionsIn, ExtensionsIn, ShowsOptionalPermission, ShowsOptionalOptions, ShowsExtensions,
         AssetFits, OptionalPermissionFits, OptionalOptionsFit;
    var end := at + size;
    HeldWhole(mem, at, size);
    var s := PutSettings(u, rest);
    var a := PutOptionalPermission(u.active, s);
    var o := PutOptionalPermission(u.owner, a);
    HeldAsset(mem, end, u.feeAsset, PutVarint(u.accountId, o));
    HeldId(mem, end, u.accountId, o);
    OptionalPermissionBack(mem, u.owner, a, end);
    OptionalPermissionBack(mem, u.active, s, end);
    SettingsBack(mem, end, u, rest);
    assert u.extensions.count == 0 ==> u.extensions.data + rest == rest;
  }

  lemma HeldWhole(mem: Memory, at: nat, size: nat)
    ensures Holds(mem, at + size, Window(mem, at, size)) && |Window(mem, at, size)| == size
  {
  }

  // ---- transfer ----

  datatype TransferValue = TransferValue(
    feeAsset: Asset, fromId: nat, toId: nat, transferAsset: Asset, memo: Option<MemoValue>, extensions: ExtensionsValue)

  predicate TransferFits(t: TransferValue) {
    && AssetFits(t.feeAsset) && t.fromId < 0x1_0000_0000_0000 && t.toId < 0x1_0000_0000_0000
    && AssetFits(t.transferAsset)
    && (t.memo.Some? ==> MemoFits(t.memo.value)) && ExtensionsFit(t.extensions)
  }

  function PutOptionalMemo(o: Option<MemoValue>, rest: seq<byte>): seq<byte> {
    match o
    case None => PutBool(false, rest)
    case Some(m) => PutBool(true, PutMemo(m, rest))
  }

  function DecodedOptionalMemo(o: Option<MemoValue>, rest: seq<byte>, end: nat): Option<Memo> {
    match o
    case None => None
    case Some(m) => Some(DecodedMemo(m, rest, end))
  }

  ghost predicate ShowsOptionalMemo(mem: Memory, d: Option<Memo>, o: Option<MemoValue>) {
    match o
    case None => d.None?
    case Some(m) => d.Some? && ShowsMemo(mem, d.value, m)
  }

  lemma OptionalMemoBack(mem: Memory, o: Option<MemoValue>, rest: seq<byte>, end: nat)
    requires o.Some? ==> MemoFits(o.value)
    requires Holds(mem, end, PutOptionalMemo(o, rest))
    ensures var d := DecodedOptionalMemo(o, rest, end);
      && OptionalMemoIn(PutOptionalMemo(o, rest), end) == Some((d, rest))
      && ShowsOptionalMemo(mem, d, o) && Holds(mem, end, rest)
  {
    hide PutMemo, MemoFits, DecodedMemo, ShowsMemo, Holds, MemoIn;
    match o {
      case None =>
        BoolBack(mem, end, false, rest);
      case Some(m) =>
        BoolBack(mem, end, true, PutMemo(m, rest));
        MemoBack(m, rest, end);
        MemoShown(mem, end, m, rest);
    }
  }

  function PutTransfer(t: TransferValue, rest: seq<byte>): seq<byte> {
    PutAsset(t.feeAsset, PutVarint(t.fromId, PutVarint(t.toId, PutPayment(t, rest))))
  }

  function PutPayment(t: TransferValue, rest: seq<byte>): seq<byte> {
    PutAsset(t.transferAsset, PutOptionalMemo(t.memo, PutExtensions(t.extensions, rest)))
  }

  ghost predicate ShowsTransfer(mem: Memory, d: Transfer, t: TransferValue) {
    && d.feeAsset == t.feeAsset && d.fromId == t.fromId && d.toId == t.toId && d.transferAsset == t.transferAsset
    && ShowsOptionalMemo(mem, d.memo, t.memo) && ShowsExtensions(mem, d.extensions, t.extensions)
    && (d.containsUninterpretable <==> t.extensions.count > 0)
  }

  /** Every transfer, with a memo of any length or without one, is decoded to what it says. */
  lemma TransferRoundTrip(mem: Memory, at: nat, size: nat, t: TransferValue, rest: seq<byte>)
    requires TransferFits(t) && size < UINT32 && Window(mem, at, size) == PutTransfer(t, rest)
    ensures var r := TransferIn(Window(mem, at, size), at + size);
      r.Some? && ShowsTransfer(mem, r.value.0, t) && r.value.1 == t.extensions.data + rest
  {
    hide PutAsset, PutVarint, PutOptionalMemo, PutExtensions, Holds, AssetIn, Varint48In, OptionalMemoIn, ExtensionsIn,
         ShowsOptionalMemo, AssetFits, MemoFits, ExtensionsFit, Window;
    var end := at + size;
    HeldWhole(mem, at, size);
    var e := PutExtensions(t.extensions, rest);
    var m := PutOptionalMemo(t.memo, e);
    var p := PutAsset(t.transferAsset, m);
    HeldAsset(mem, end, t.feeAsset, PutVarint(t.fromId, PutVarint(t.toId, p)));
    HeldId(mem, end, t.fromId, PutVarint(t.toId, p));
    HeldId(mem, end, t.toId, p);
    HeldAsset(mem, end, t.transferAsset, m);
    OptionalMemoBack(mem, t.memo, e, end);
    HeldExtensions(mem, end, t.extensions, rest);
  }

  // ---- limit order ----

  datatype LimitOrderCreateValue = LimitOrderCreateValue(
    feeAsset: Asset, sellerId: nat, sellAsset: Asset, buyAsset: Asset, expires: nat, fillOrKill: bool,
    extensions: ExtensionsValue)

  predicate LimitOrderCreateFits(c: LimitOrderCreateValue) {
    && AssetFits(c.feeAsset) && c.sellerId < 0x1_0000_0000_0000 && AssetFits(c.sellAsset) && AssetFits(c.buyAsset)
    && c.expires < 0x1_0000_0000 && ExtensionsFit(c.extensions)
  }

  function PutLimitOrderCreate(c: LimitOrderCreateValue, rest: seq<byte>): seq<byte> {
    PutAsset(c.feeAsset, PutVarint(c.sellerId, PutAsset(c.sellAsset, PutAsset(c.buyAsset, PutTerms(c, rest)))))
  }

  function PutTerms(c: LimitOrderCreateValue, rest: seq<byte>): seq<byte> {
    PutLittle(c.expires, 4, PutBool(c.fillOrKill, PutExtensions(c.extensions, rest)))
  }

  ghost predicate ShowsLimitOrderCreate(mem: Memory, d: LimitOrderCreate, c: LimitOrderCreateValue) {
    && d.feeAsset == c.feeAsset && d.sellerId == c.sellerId && d.sellAsset == c.sellAsset && d.buyAsset == c.buyAsset
    && d.expires == c.expires && d.fillOrKill == c.fillOrKill && ShowsExtensions(mem, d.extensions, c.extensions)
    && (d.containsUninterpretable <==> c.extensions.count > 0)
  }

  lemma HeldTime(mem: Memory, end: nat, v: nat, rest: seq<byte>)
    requires v < UINT32 && Holds(mem, end, PutLittle(v, 4, rest))
    ensures LittleIn(PutLittle(v, 4, rest), 4) == Some((v, rest)) && Holds(mem, end, rest)
  {
    hide PutLittle, LittleIn, Holds;
    Little32Back(v, rest);
    LittleEnds(v, 4, rest);
    HoldsTail(mem, end, PutLittle(v, 4, rest), rest);
  }

  lemma LimitOrderCreateRoundTrip(mem: Memory, at: nat, size: nat, c: LimitOrderCreateValue, rest: seq<byte>)
    requires LimitOrderCreateFits(c) && size < UINT32 && Window(mem, at, size) == PutLimitOrderCreate(c, rest)
    ensures var r := LimitOrderCreateIn(Window(mem, at, size), at + size);
      r.Some? && ShowsLimitOrderCreate(mem, r.value.0, c) && r.value.1 == c.extensions.data + rest
  {
    hide PutAsset, PutVarint, PutLittle, PutBool, PutExtensions, Holds, AssetIn, Varint48In, LittleIn, BoolIn,
         ExtensionsIn, AssetFits, ExtensionsFit, Window;
    var end := at + size;
    HeldWhole(mem, at, size);
    var e := PutExtensions(c.extensions, rest);
    var f := PutBool(c.fillOrKill, e);
    var x := PutLittle(c.expires, 4, f);
    var b := PutAsset(c.buyAsset, x);
    var s := PutAsset(c.sellAsset, b);
    HeldAsset(mem, end, c.feeAsset, PutVarint(c.sellerId, s));
    HeldId(mem, end, c.sellerId, s);
    HeldAsset(mem, end, c.sellAsset, b);
    HeldAsset(mem, end, c.buyAsset, x);
    HeldTime(mem, end, c.expires, f);
    BoolBack(mem, end, c.fillOrKill, e);
    HeldExtensions(mem, end, c.extensions, rest);
  }

  // ---- cancel and upgrade ----

  datatype LimitOrderCancelValue = LimitOrderCancelValue(
    feeAsset: Asset, accountId: nat, orderId: nat, extensions: ExtensionsValue)

  predicate LimitOrderCancelFits(c: LimitOrderCancelValue) {
    && AssetFits(c.feeAsset) && c.accountId < 0x1_0000_0000_0000 && c.orderId < 0x1_0000_0000_0000
    && ExtensionsFit(c.extensions)
  }

  function PutLimitOrderCancel(c: LimitOrderCancelValue, rest: seq<byte>): seq<byte> {
    PutAsset(c.feeAsset, PutVarint(c.accountId, PutVarint(c.orderId, PutExtensions(c.extensions, rest))))
  }

  ghost predicate ShowsLimitOrderCancel(mem: Memory, d: LimitOrderCancel, c: LimitOrderCancelValue) {
    && d.feeAsset == c.feeAsset && d.accountId == c.accountId && d.orderId == c.orderId
    && ShowsExtensions(mem, d.extensions, c.extensions) && (d.containsUninterpretable <==> c.extensions.count > 0)
  }

  lemma LimitOrderCancelRoundTrip(mem: Memory, at: nat, size: nat, c: LimitOrderCancelValue, rest: seq<byte>)
    requires LimitOrderCancelFits(c) && size < UINT32 && Window(mem, at, size) == PutLimitOrderCancel(c, rest)
    ensures var r := LimitOrderCancelIn(Window(mem, at, size), at + size);
      r.Some? && ShowsLimitOrderCancel(mem, r.value.0, c) && r.value.1 == c.extensions.data + rest
  {
    hide PutAsset, PutVarint, PutExtensions, Holds, AssetIn, Varint48In, ExtensionsIn, AssetFits, ExtensionsFit, Window;
    var end := at + size;
    HeldWhole(mem, at, size);
    var e := PutExtensions(c.extensions, rest);
    var o := PutVarint(c.orderId, e);
    HeldAsset(mem, end, c.feeAsset, PutVarint(c.accountId, o));
    HeldId(mem, end, c.accountId, o);
    HeldId(mem, end, c.orderId, e);
    HeldExtensions(mem, end, c.extensions, rest);
  }

  datatype AccountUpgradeValue = AccountUpgradeValue(
    feeAsset: Asset, accountId: nat, upgradeLtm: bool, extensions: ExtensionsValue)

  predicate AccountUpgradeFits(u: AccountUpgradeValue) {
    AssetFits(u.feeAsset) && u.accountId < 0x1_0000_0000_0000 && ExtensionsFit(u.extensions)
  }

  function PutAccountUpgrade(u: AccountUpgradeValue, rest: seq<byte>): seq<byte> {
    PutAsset(u.feeAsset, PutVarint(u.accountId, PutBool(u.upgradeLtm, PutExtensions(u.extensions, rest))))
  }

  ghost predicate ShowsAccountUpgrade(mem: Memory, d: AccountUpgrade, u: AccountUpgradeValue) {
    && d.feeAsset == u.feeAsset && d.accountId == u.accountId && d.upgradeLtm == u.upgradeLtm
    && ShowsExtensions(mem, d.extensions, u.extensions) && (d.containsUninterpretable <==> u.extensions.count > 0)
  }

  lemma AccountUpgradeRoundTrip(mem: Memory, at: nat, size: nat, u: AccountUpgradeValue, rest: seq<byte>)
    requires AccountUpgradeFits(u) && size < UINT32 && Window(mem, at, size) == PutAccountUpgrade(u, rest)
    ensures var r := AccountUpgradeIn(Window(mem, at, size), at + size);
      r.Some? && ShowsAccountUpgrade(mem, r.value.0, u) && r.value.1 == u.extensions.data + rest
  {
    hide PutAsset, PutVarint, PutBool, PutExtensions, Holds, AssetIn, Varint48In, BoolIn, ExtensionsIn, AssetFits,
         ExtensionsFit, Window;
    var end := at + size;
    HeldWhole(mem, at, size);
    var e := PutExtensions(u.extensions, rest);
    var b := PutBool(u.upgradeLtm, e);
    HeldAsset(mem, end, u.feeAsset, PutVarint(u.accountId, b));
    HeldId(mem, end, u.accountId, b);
    BoolBack(mem, end, u.upgradeLtm, e);
    HeldExtensions(mem, end, u.extensions, rest);
  }
}
