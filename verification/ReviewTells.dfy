/** What the screens of a review tell of the operations, and what they do not. */
module ReviewTells {
  import opened Numerals
  import opened Outcomes
  import opened Codec
  import opened CodecRoundTrip
  import opened OperationRoundTrip
  import opened CText
  import opened Assets
  import opened Times
  import opened Lists
  import opened ParseOperations
  import opened Screens
  import opened TextsTell
  import opened ToldLists
  import opened Listings
  import KeyText

  // ---- what can be told ----

  const NONE := ExtensionsValue(0, [])

  function ShownOptions(o: Option<OptionsValue>): Option<OptionsValue> {
    match o
    case None => None
    case Some(v) => Some(v.(extensions := NONE))
  }

  /**
   * What the screens are about: no memo, no extensions, and nothing of an operation that is not decoded but its
   * name.
   */
  function Shown(v: OperationValue): OperationValue {
    match v
    case TransferOf(t) => TransferOf(t.(memo := None, extensions := NONE))
    case OrderOf(c) => OrderOf(c.(extensions := NONE))
    case CancelOf(c) => CancelOf(c.(extensions := NONE))
    case UpdateOf(u) => UpdateOf(u.(options := ShownOptions(u.options), extensions := NONE))
    case UpgradeOf(u) => UpgradeOf(u.(extensions := NONE))
    case OtherOf(id, _) => OtherOf(ShownId(id), [])
  }

  function ShownAll(ops: seq<OperationValue>): seq<OperationValue> {
    seq(|ops|, i requires 0 <= i < |ops| => Shown(ops[i]))
  }

  predicate PermissionCounts(p: Option<PermissionValue>) {
    p.Some? ==> |p.value.accounts| < UINT32 && |p.value.keys| < UINT32
  }

  predicate OptionsCount(o: Option<OptionsValue>) {
    o.Some? ==> |o.value.votes| < UINT32
  }

  /** An operation that can be serialized: its numbers and the lengths of its lists have room in their fields. */
  predicate Serializable(v: OperationValue) {
    && OperationFits(v)
    && (v.UpdateOf? ==>
          PermissionCounts(v.update.owner) && PermissionCounts(v.update.active) && OptionsCount(v.update.options))
  }

  predicate PermissionTold(p: Option<PermissionValue>, ripemd: KeyText.Ripemd160) {
    p.Some? ==> AccountsTold(p.value.accounts) && KeysTold(p.value.keys, ripemd)
  }

  predicate OptionsTold(o: Option<OptionsValue>) {
    o.Some? ==> VotesTold(o.value.votes)
  }

  /** The value line ends behind the last number of every list. */
  predicate ListsTold(v: OperationValue, ripemd: KeyText.Ripemd160) {
    v.UpdateOf? ==>
      PermissionTold(v.update.owner, ripemd) && PermissionTold(v.update.active, ripemd) && OptionsTold(v.update.options)
  }

  // ---- the optional parts ----

  lemma LineTells(v: nat, w: nat)
    requires v < UINT32 && w < UINT32 && Line(Decimal(v)) == Line(Decimal(w))
    ensures v == w
  {
    hide Decimal;
    assert "" + Decimal(v) == Decimal(v) && "" + Decimal(w) == Decimal(w);
    NumberLineTells("", v, w);
  }

  lemma PermissionTells(who: string, p: Option<PermissionValue>, q: Option<PermissionValue>, ripemd: KeyText.Ripemd160)
    requires OptionalPermissionFits(p) && OptionalPermissionFits(q) && PermissionCounts(p) && PermissionCounts(q)
    requires PermissionListing(who, p, ripemd) == PermissionListing(who, q, ripemd) && PermissionTold(p, ripemd)
    ensures p == q
  {
    hide Decimal, Rendered, AccountTexts, KeyTexts, AccountsTold, KeysTold, AccountAuthFits, KeyAuthFits, Line;
    var l, m := PermissionListing(who, p, ripemd), PermissionListing(who, q, ripemd);
    assert |l| == |m|;
    if p.Some? {
      var a, b := p.value, q.value;
      assert l[1] == m[1] && l[2] == m[2] && l[3] == m[3] && l[4] == m[4] && l[5] == m[5];
      LineTells(a.weightThreshold, b.weightThreshold);
      NumberLineTells("Count: ", |a.accounts|, |b.accounts|);
      NumberLineTells("Count: ", |a.keys|, |b.keys|);
      AccountsTell(a.accounts, b.accounts);
      KeysTell(a.keys, b.keys, ripemd);
    }
  }

  lemma OptionsTells(o: Option<OptionsValue>, r: Option<OptionsValue>, ripemd: KeyText.Ripemd160)
    requires OptionalOptionsFit(o) && OptionalOptionsFit(r) && OptionsCount(o) && OptionsCount(r)
    requires OptionsListing(o, ripemd) == OptionsListing(r, ripemd) && OptionsTold(o)
    ensures ShownOptions(o) == ShownOptions(r)
  {
    hide Decimal, Rendered, VoteTexts, VotesTold, Line, ExtensionsFit, AccountIdText, KeyText.Text;
    var l, m := OptionsListing(o, ripemd), OptionsListing(r, ripemd);
    assert |l| == |m|;
    if o.Some? {
      var a, b := o.value, r.value;
      assert l[1] == m[1] && l[2] == m[2] && l[3] == m[3] && l[4] == m[4] && l[5] == m[5] && l[6] == m[6];
      KeyTells(a.memoPubkey, b.memoPubkey, ripemd);
      AccountTells(a.votingAccount, b.votingAccount);
      LineTells(a.numWitnesses, b.numWitnesses);
      LineTells(a.numCommittee, b.numCommittee);
      NumberLineTells("Count: ", |a.votes|, |b.votes|);
      VotesTell(a.votes, b.votes);
    }
  }

  lemma PermissionNotTold(p: Option<PermissionValue>, ripemd: KeyText.Ripemd160) returns (q: Option<PermissionValue>)
    requires OptionalPermissionFits(p) && PermissionCounts(p) && !PermissionTold(p, ripemd)
    ensures OptionalPermissionFits(q) && PermissionCounts(q) && p != q
    ensures forall who :: PermissionListing(who, p, ripemd) == PermissionListing(who, q, ripemd)
  {
    hide Decimal, Rendered, AccountTexts, KeyTexts, AccountsTold, KeysTold, AccountAuthFits, KeyAuthFits, Line;
    if !AccountsTold(p.value.accounts) {
      var others := AccountsNotTold(p.value.accounts);
      q := Some(p.value.(accounts := others));
    } else {
      var others := KeysNotTold(p.value.keys, ripemd);
      q := Some(p.value.(keys := others));
    }
  }

  lemma OptionsNotTold(o: Option<OptionsValue>, ripemd: KeyText.Ripemd160) returns (r: Option<OptionsValue>)
    requires OptionalOptionsFit(o) && OptionsCount(o) && !OptionsTold(o)
    ensures OptionalOptionsFit(r) && OptionsCount(r) && ShownOptions(o) != ShownOptions(r)
    ensures OptionsListing(o, ripemd) == OptionsListing(r, ripemd)
  {
    hide Decimal, Rendered, VoteTexts, VotesTold, Line, ExtensionsFit, AccountIdText, KeyText.Text;
    var others := VotesNotTold(o.value.votes);
    r := Some(o.value.(votes := others));
  }

  // ---- an operation ----

  /** The name on its first screen tells what kind an operation is. */
  lemma NameTells(v: OperationValue, w: OperationValue)
    requires OperationFits(v) && OperationFits(w)
    requires Line(OperationName(HostOperationOf(v).id)) == Line(OperationName(HostOperationOf(w).id))
    ensures ShownId(HostOperationOf(v).id) == ShownId(HostOperationOf(w).id)
    ensures SameKind(v, w)
  {
    hide OperationName, IdOfName, PutTransfer, PutLimitOrderCreate, PutLimitOrderCancel, PutAccountUpdate,
         PutAccountUpgrade, TransferFits, LimitOrderCreateFits, LimitOrderCancelFits, AccountUpdateFits,
         AccountUpgradeFits;
    NameBack(HostOperationOf(v).id);
    NameBack(HostOperationOf(w).id);
  }

  predicate SameKind(v: OperationValue, w: OperationValue) {
    match v
    case TransferOf(_) => w.TransferOf?
    case OrderOf(_) => w.OrderOf?
    case CancelOf(_) => w.CancelOf?
    case UpdateOf(_) => w.UpdateOf?
    case UpgradeOf(_) => w.UpgradeOf?
    case OtherOf(id, _) => w.OtherOf? && ShownId(id) == ShownId(w.id)
  }

  /** The screens of an operation of which every list is told are those of no other, as far as they are about it. */
  lemma ListingTells(v: OperationValue, w: OperationValue, ripemd: KeyText.Ripemd160)
    requires Serializable(v) && Serializable(w) && SameKind(v, w)
    requires Listing(v, ripemd) == Listing(w, ripemd) && ListsTold(v, ripemd)
    ensures Shown(v) == Shown(w)
  {
    hide AssetText, AccountIdText, Decimal, TimeText, DateOf, ShownId, Line, PermissionListing, OptionsListing,
         PermissionTold, OptionsTold, AssetFits, ExtensionsFit, MemoFits, OptionalPermissionFits, OptionalOptionsFit,
         PermissionCounts, OptionsCount, ShownOptions;
    var l, m := Listing(v, ripemd), Listing(w, ripemd);
    match v {
      case TransferOf(t) => TransferTells(t, w.transfer, ripemd);
      case OrderOf(c) => OrderTells(c, w.order, ripemd);
      case CancelOf(c) => CancelTells(c, w.cancel, ripemd);
      case UpdateOf(u) => UpdateTells(u, w.update, ripemd);
      case UpgradeOf(u) => UpgradeTells(u, w.upgrade, ripemd);
      case OtherOf(_, _) =>
    }
  }

  lemma TransferTells(t: TransferValue, o: TransferValue, ripemd: KeyText.Ripemd160)
    requires Listing(TransferOf(t), ripemd) == Listing(TransferOf(o), ripemd)
    ensures Shown(TransferOf(t)) == Shown(TransferOf(o))
  {
    hide AssetText, AccountIdText;
    var l, m := Listing(TransferOf(t), ripemd), Listing(TransferOf(o), ripemd);
    assert l[0][0] == m[0][0] && l[1][0] == m[1][0] && l[2][0] == m[2][0] && l[3][0] == m[3][0];
    AssetTextInjective(t.transferAsset, o.transferAsset);
    AccountTells(t.fromId, o.fromId);
    AccountTells(t.toId, o.toId);
    AssetTextInjective(t.feeAsset, o.feeAsset);
  }

  lemma OrderTells(c: LimitOrderCreateValue, o: LimitOrderCreateValue, ripemd: KeyText.Ripemd160)
    requires c.expires < UINT32 && o.expires < UINT32
    requires Listing(OrderOf(c), ripemd) == Listing(OrderOf(o), ripemd)
    ensures Shown(OrderOf(c)) == Shown(OrderOf(o))
  {
    hide AssetText, AccountIdText, TimeText, DateOf, BoolText;
    var l, m := Listing(OrderOf(c), ripemd), Listing(OrderOf(o), ripemd);
    assert l[0][0] == m[0][0] && l[1][0] == m[1][0] && l[2][0] == m[2][0];
    assert l[3][0] == m[3][0] && l[4][0] == m[4][0] && l[5][0] == m[5][0];
    AccountTells(c.sellerId, o.sellerId);
    AssetTextInjective(c.sellAsset, o.sellAsset);
    AssetTextInjective(c.buyAsset, o.buyAsset);
    TimeTells(c.expires, o.expires);
    BoolTells(c.fillOrKill, o.fillOrKill);
    AssetTextInjective(c.feeAsset, o.feeAsset);
  }

  lemma BoolTells(b: bool, c: bool)
    requires BoolText(b) == BoolText(c)
    ensures b == c
  {
    hide BoolText, ReadBool;
    BoolTold(b);
    BoolTold(c);
  }

  lemma CancelTells(c: LimitOrderCancelValue, o: LimitOrderCancelValue, ripemd: KeyText.Ripemd160)
    requires Listing(CancelOf(c), ripemd) == Listing(CancelOf(o), ripemd)
    ensures Shown(CancelOf(c)) == Shown(CancelOf(o))
  {
    hide AssetText, AccountIdText, Decimal;
    var l, m := Listing(CancelOf(c), ripemd), Listing(CancelOf(o), ripemd);
    assert l[0][0] == m[0][0] && l[1][0] == m[1][0] && l[2][0] == m[2][0];
    AccountTells(c.accountId, o.accountId);
    DecimalTells(c.orderId, o.orderId);
    AssetTextInjective(c.feeAsset, o.feeAsset);
  }

  lemma UpgradeTells(u: AccountUpgradeValue, o: AccountUpgradeValue, ripemd: KeyText.Ripemd160)
    requires Listing(UpgradeOf(u), ripemd) == Listing(UpgradeOf(o), ripemd)
    ensures Shown(UpgradeOf(u)) == Shown(UpgradeOf(o))
  {
    hide AssetText, AccountIdText;
    var l, m := Listing(UpgradeOf(u), ripemd), Listing(UpgradeOf(o), ripemd);
    assert l[0][0] == m[0][0] && l[1][0] == m[1][0] && l[2][0] == m[2][0];
    AccountTells(u.accountId, o.accountId);
    UpgradeLines();
    AssetTextInjective(u.feeAsset, o.feeAsset);
  }

  lemma UpgradeLines()
    ensures Line("Lifetime Membership") != Line("None / No Upgrade")
  {
    assert |Line("Lifetime Membership")| == 19 && |Line("None / No Upgrade")| == 17;
  }

  lemma UpdateTells(u: AccountUpdateValue, o: AccountUpdateValue, ripemd: KeyText.Ripemd160)
    requires Serializable(UpdateOf(u)) && Serializable(UpdateOf(o)) && ListsTold(UpdateOf(u), ripemd)
    requires Listing(UpdateOf(u), ripemd) == Listing(UpdateOf(o), ripemd)
    ensures Shown(UpdateOf(u)) == Shown(UpdateOf(o))
  {
    hide AssetText, AccountIdText, PermissionListing, OptionsListing, PermissionTold, OptionsTold, AssetFits,
         ExtensionsFit, OptionalPermissionFits, OptionalOptionsFit, PermissionCounts, OptionsCount, ShownOptions;
    var l, m := Listing(UpdateOf(u), ripemd), Listing(UpdateOf(o), ripemd);
    assert l[0][0] == m[0][0] && l[1] == m[1] && l[2] == m[2] && l[3] == m[3] && l[4][0] == m[4][0];
    AccountTells(u.accountId, o.accountId);
    PermissionTells("Owner", u.owner, o.owner, ripemd);
    PermissionTells("Active", u.active, o.active, ripemd);
    OptionsTells(u.options, o.options, ripemd);
    AssetTextInjective(u.feeAsset, o.feeAsset);
  }

  /** An operation with a list that is not told has the screens of another, which differs in that list. */
  lemma ListingNotTold(v: OperationValue, ripemd: KeyText.Ripemd160) returns (w: OperationValue)
    requires Serializable(v) && !ListsTold(v, ripemd)
    ensures Serializable(w) && SameKind(v, w) && v.UpdateOf?
    ensures Listing(v, ripemd) == Listing(w, ripemd) && Shown(v) != Shown(w)
  {
    hide AssetText, AccountIdText, PermissionListing, OptionsListing, PermissionTold, OptionsTold, AssetFits,
         ExtensionsFit, OptionalPermissionFits, OptionalOptionsFit, PermissionCounts, OptionsCount, ShownOptions;
    var u := v.update;
    if !PermissionTold(u.owner, ripemd) {
      var other := PermissionNotTold(u.owner, ripemd);
      w := UpdateOf(u.(owner := other));
    } else if !PermissionTold(u.active, ripemd) {
      var other := PermissionNotTold(u.active, ripemd);
      w := UpdateOf(u.(active := other));
    } else {
      var other := OptionsNotTold(u.options, ripemd);
      w := UpdateOf(u.(options := other));
    }
  }

  /** The screens are about nothing but what is shown. */
  lemma ShownListing(v: OperationValue, ripemd: KeyText.Ripemd160)
    ensures Listing(Shown(v), ripemd) == Listing(v, ripemd)
  {
    hide AssetText, AccountIdText, Decimal, TimeText, DateOf, Line, PermissionListing;
    if v.UpdateOf? {
      ShownOptionsListing(v.update.options, ripemd);
    }
  }

  lemma ShownOptionsListing(o: Option<OptionsValue>, ripemd: KeyText.Ripemd160)
    ensures OptionsListing(ShownOptions(o), ripemd) == OptionsListing(o, ripemd)
  {
    hide AccountIdText, Decimal, Line, Rendered, VoteTexts, KeyText.Text;
  }

  // ---- the whole review ----

  predicate AllSerializable(ops: seq<OperationValue>) {
    |ops| < UINT32 && forall v <- ops :: Serializable(v)
  }

  lemma {:induction false} FlatPrefix(ops: seq<OperationValue>, k: nat, n: nat, ripemd: KeyText.Ripemd160)
    requires k <= n <= |ops|
    ensures FlatOperations(ops, k, ripemd) <= FlatOperations(ops, n, ripemd)
  {
    hide Listing, TitleScreen, FlatArguments;
    if k < n {
      FlatPrefix(ops, k, n - 1, ripemd);
    }
  }

  lemma {:induction false} ArgumentsPrefix(l: seq<seq<Screen>>, a: nat, n: nat)
    requires a <= n <= |l|
    ensures FlatArguments(l, a) <= FlatArguments(l, n)
  {
    if a < n {
      ArgumentsPrefix(l, a, n - 1);
    }
  }

  lemma FlatNext(ops: seq<OperationValue>, n: nat, ripemd: KeyText.Ripemd160)
    requires n < |ops|
    ensures var l := Listing(ops[n], ripemd);
      FlatOperations(ops, n + 1, ripemd) == FlatOperations(ops, n, ripemd) + [TitleScreen(ops, n)]
          + FlatArguments(l, |l|)
  {
    hide Listing, TitleScreen, FlatArguments;
  }

  /** The first screen of an argument tells how many it has. */
  predicate HeaderTells(x: seq<Screen>, y: seq<Screen>) {
    x != [] && y != [] && (x[0] == y[0] ==> |x| == |y|)
  }

  predicate HeadersTell(l: seq<seq<Screen>>, m: seq<seq<Screen>>) {
    |l| == |m| && forall a :: 0 <= a < |l| ==> HeaderTells(l[a], m[a])
  }

  /** Two lists of arguments that the same screens begin with are the same. */
  lemma {:induction false} ArgumentsAlign(l: seq<seq<Screen>>, m: seq<seq<Screen>>, s: seq<Screen>, n: nat)
    requires HeadersTell(l, m) && n <= |l| && FlatArguments(l, |l|) <= s && FlatArguments(m, |m|) <= s
    ensures l[..n] == m[..n] && FlatArguments(l, n) == FlatArguments(m, n)
  {
    hide FlatArguments;
    NoArguments(l);
    NoArguments(m);
    if n > 0 {
      var a := n - 1;
      ArgumentsAlign(l, m, s, a);
      ArgumentsPrefix(l, n, |l|);
      ArgumentsPrefix(m, n, |m|);
      ArgumentsNext(l, a);
      ArgumentsNext(m, a);
      var front := FlatArguments(l, a);
      SameBehind(front, l[a], m[a], s);
      assert l[..n] == l[..a] + [l[a]] && m[..n] == m[..a] + [m[a]];
    }
  }

  lemma NoArguments(l: seq<seq<Screen>>)
    ensures FlatArguments(l, 0) == []
  {
  }

  lemma ArgumentsNext(l: seq<seq<Screen>>, a: nat)
    requires a < |l|
    ensures FlatArguments(l, a + 1) == FlatArguments(l, a) + l[a]
  {
  }

  lemma SameBehind(front: seq<Screen>, x: seq<Screen>, y: seq<Screen>, s: seq<Screen>)
    requires front + x <= s && front + y <= s && HeaderTells(x, y)
    ensures x == y
  {
    assert s[|front|] == (front + x)[|front|] == x[0] && s[|front|] == (front + y)[|front|] == y[0];
    assert x == s[|front|..|front| + |x|] && y == s[|front|..|front| + |y|];
  }

  lemma HeadersOf(v: OperationValue, w: OperationValue, ripemd: KeyText.Ripemd160)
    requires SameKind(v, w)
    ensures HeadersTell(Listing(v, ripemd), Listing(w, ripemd))
  {
    hide AssetText, AccountIdText, Decimal, TimeText, DateOf, ShownId, Line, PermissionListing, OptionsListing;
    if v.UpdateOf? {
      UpdateHeaders(v.update, w.update, ripemd);
    } else {
      var l, m := Listing(v, ripemd), Listing(w, ripemd);
      assert forall a :: 0 <= a < |l| ==> |l[a]| == 1 && |m[a]| == 1;
    }
  }

  lemma UpdateHeaders(u: AccountUpdateValue, o: AccountUpdateValue, ripemd: KeyText.Ripemd160)
    ensures HeadersTell(Listing(UpdateOf(u), ripemd), Listing(UpdateOf(o), ripemd))
  {
    hide AssetText, AccountIdText, PermissionListing, OptionsListing, HeaderTells;
    var l, m := Listing(UpdateOf(u), ripemd), Listing(UpdateOf(o), ripemd);
    OneScreen(l[0], m[0]);
    PermissionHeader("Owner", u.owner, o.owner, ripemd);
    PermissionHeader("Active", u.active, o.active, ripemd);
    OptionsHeader(u.options, o.options, ripemd);
    OneScreen(l[4], m[4]);
  }

  lemma OneScreen(x: seq<Screen>, y: seq<Screen>)
    requires |x| == 1 && |y| == 1
    ensures HeaderTells(x, y)
  {
  }

  lemma PermissionHeader(who: string, p: Option<PermissionValue>, q: Option<PermissionValue>, ripemd: KeyText.Ripemd160)
    ensures HeaderTells(PermissionListing(who, p, ripemd), PermissionListing(who, q, ripemd))
  {
    hide Decimal, Rendered, AccountTexts, KeyTexts;
    HeaderLines();
  }

  lemma OptionsHeader(o: Option<OptionsValue>, r: Option<OptionsValue>, ripemd: KeyText.Ripemd160)
    ensures HeaderTells(OptionsListing(o, ripemd), OptionsListing(r, ripemd))
  {
    hide Decimal, Rendered, VoteTexts, AccountIdText, KeyText.Text;
    HeaderLines();
  }

  lemma HeaderLines()
    ensures Line("New Data") != Line("No Change")
  {
    assert |Line("New Data")| == 8 && |Line("No Change")| == 9;
  }

  /** The operations are of the same kinds and have the same screens, one by one. */
  ghost predicate ListedAlike(ops: seq<OperationValue>, others: seq<OperationValue>, n: nat, ripemd: KeyText.Ripemd160)
    requires n <= |ops| && n <= |others|
  {
    forall i :: 0 <= i < n ==> SameKind(ops[i], others[i]) && Listing(ops[i], ripemd) == Listing(others[i], ripemd)
  }

  /** Reviews with the same screens have them operation by operation. */
  lemma {:induction false} OperationsAlign(ops: seq<OperationValue>, others: seq<OperationValue>, n: nat,
                                           ripemd: KeyText.Ripemd160)
    requires AllSerializable(ops) && AllSerializable(others) && |ops| == |others| && n <= |ops|
    requires FlatOperations(ops, |ops|, ripemd) == FlatOperations(others, |others|, ripemd)
    ensures FlatOperations(ops, n, ripemd) == FlatOperations(others, n, ripemd) && ListedAlike(ops, others, n, ripemd)
  {
    hide FlatOperations, Listing, SameKind, Serializable;
    NothingFlat(ops, ripemd);
    NothingFlat(others, ripemd);
    if n > 0 {
      OperationsAlign(ops, others, n - 1, ripemd);
      OperationAligns(ops, others, n - 1, ripemd);
    }
  }

  lemma NothingFlat(ops: seq<OperationValue>, ripemd: KeyText.Ripemd160)
    ensures FlatOperations(ops, 0, ripemd) == []
  {
  }

  lemma OperationAligns(ops: seq<OperationValue>, others: seq<OperationValue>, i: nat, ripemd: KeyText.Ripemd160)
    requires AllSerializable(ops) && AllSerializable(others) && |ops| == |others| && i < |ops|
    requires FlatOperations(ops, |ops|, ripemd) == FlatOperations(others, |others|, ripemd)
    requires FlatOperations(ops, i, ripemd) == FlatOperations(others, i, ripemd)
    ensures SameKind(ops[i], others[i]) && Listing(ops[i], ripemd) == Listing(others[i], ripemd)
    ensures FlatOperations(ops, i + 1, ripemd) == FlatOperations(others, i + 1, ripemd)
  {
    hide FlatOperations, Listing, SameKind, Serializable, FlatArguments, TitleScreen, HeadersTell;
    var front, s := FlatOperations(ops, i, ripemd), FlatOperations(ops, |ops|, ripemd);
    var l, m := Listing(ops[i], ripemd), Listing(others[i], ripemd);
    FlatPrefix(ops, i + 1, |ops|, ripemd);
    FlatPrefix(others, i + 1, |ops|, ripemd);
    FlatNext(ops, i, ripemd);
    FlatNext(others, i, ripemd);
    TakeApart(front, TitleScreen(ops, i), FlatArguments(l, |l|), s);
    TakeApart(front, TitleScreen(others, i), FlatArguments(m, |m|), s);
    FitsAt(ops, i);
    FitsAt(others, i);
    TitleTells(ops, others, i);
    HeadersOf(ops[i], others[i], ripemd);
    SameLength(l, m);
    ArgumentsAlign(l, m, s[|front| + 1..], |l|);
    assert l[..|l|] == l && m[..|m|] == m;
  }

  lemma FitsAt(ops: seq<OperationValue>, i: nat)
    requires AllSerializable(ops) && i < |ops|
    ensures OperationFits(ops[i])
  {
    hide OperationFits;
    assert ops[i] in ops;
  }

  lemma SameLength(l: seq<seq<Screen>>, m: seq<seq<Screen>>)
    requires HeadersTell(l, m)
    ensures |l| == |m|
  {
  }

  lemma TakeApart(front: seq<Screen>, title: Screen, more: seq<Screen>, s: seq<Screen>)
    requires front + [title] + more <= s
    ensures |front| < |s| && s[|front|] == title && more <= s[|front| + 1..]
  {
    var t := front + [title] + more;
    assert t[|front|] == title;
    assert s[..|t|] == t && s[|front| + 1..][..|more|] == t[|front| + 1..] == more;
  }

  lemma TitleTells(ops: seq<OperationValue>, others: seq<OperationValue>, i: nat)
    requires i < |ops| && i < |others| && OperationFits(ops[i]) && OperationFits(others[i])
    requires TitleScreen(ops, i) == TitleScreen(others, i)
    ensures SameKind(ops[i], others[i])
  {
    hide OperationFits, HostOperationOf, OperationName, Decimal, Cut, Line, SameKind;
    NameTells(ops[i], others[i]);
  }

  /** The first title tells how many operations there are. */
  lemma CountTells(ops: seq<OperationValue>, others: seq<OperationValue>)
    requires ops != [] && others != [] && |ops| < UINT32 && |others| < UINT32
    requires TitleScreen(ops, 0) == TitleScreen(others, 0)
    ensures |ops| == |others|
  {
    hide HostOperationOf, OperationName, Decimal, Line;
    ShortNumber(|ops|);
    ShortNumber(|others|);
    var d, e := Decimal(|ops|), Decimal(|others|);
    var s, t := "Operation " + Decimal(1) + " of " + d, "Operation " + Decimal(1) + " of " + e;
    OneDigit();
    assert d == s[15..] && e == t[15..];
    DecimalTells(|ops|, |others|);
  }

  lemma OneDigit()
    ensures |Decimal(1)| == 1
  {
    hide Digits;
    LastOfDecimal(1);
    CText.NoDigits();
  }

  lemma ScreensBehindId(ops: seq<OperationValue>, others: seq<OperationValue>, txId: seq<byte>,
                        ripemd: KeyText.Ripemd160)
    requires AllScreens(ops, txId, ripemd) == AllScreens(others, txId, ripemd)
    ensures FlatOperations(ops, |ops|, ripemd) == FlatOperations(others, |others|, ripemd)
  {
    hide FlatOperations, TxIdText;
    var s, t := AllScreens(ops, txId, ripemd), AllScreens(others, txId, ripemd);
    assert FlatOperations(ops, |ops|, ripemd) == s[2..] == t[2..] == FlatOperations(others, |others|, ripemd);
  }

  /** Reviews with the same screens have as many operations. */
  lemma AsManyOperations(ops: seq<OperationValue>, others: seq<OperationValue>, ripemd: KeyText.Ripemd160)
    requires |ops| < UINT32 && |others| < UINT32
    requires FlatOperations(ops, |ops|, ripemd) == FlatOperations(others, |others|, ripemd)
    ensures |ops| == |others|
  {
    hide FlatOperations, TitleScreen, Listing, FlatArguments;
    FirstTitle(ops, ripemd);
    FirstTitle(others, ripemd);
    if ops != [] && others != [] {
      CountTells(ops, others);
    }
  }

  lemma FirstTitle(ops: seq<OperationValue>, ripemd: KeyText.Ripemd160)
    ensures if ops == [] then FlatOperations(ops, |ops|, ripemd) == [] else
      var s := FlatOperations(ops, |ops|, ripemd); s != [] && s[0] == TitleScreen(ops, 0)
  {
    hide FlatOperations, TitleScreen, Listing, FlatArguments;
    NothingFlat(ops, ripemd);
    if ops != [] {
      FlatNext(ops, 0, ripemd);
      FlatPrefix(ops, 1, |ops|, ripemd);
    }
  }

  /**
   * What the screens tell. Two reviews with the same screens are of as many operations, of the same kinds in the same
   * order; and an operation of which every list is told says the same in both, as far as the screens are about it.
   */
  lemma ScreensTell(ops: seq<OperationValue>, others: seq<OperationValue>, txId: seq<byte>, ripemd: KeyText.Ripemd160)
    requires AllSerializable(ops) && AllSerializable(others)
    requires AllScreens(ops, txId, ripemd) == AllScreens(others, txId, ripemd)
    ensures |ops| == |others| && ListedAlike(ops, others, |ops|, ripemd)
    ensures forall i :: 0 <= i < |ops| && ListsTold(ops[i], ripemd) ==> Shown(ops[i]) == Shown(others[i])
  {
    hide FlatOperations, Listing, SameKind, Serializable, AllScreens, Shown, ListsTold;
    ScreensBehindId(ops, others, txId, ripemd);
    AsManyOperations(ops, others, ripemd);
    OperationsAlign(ops, others, |ops|, ripemd);
    forall i | 0 <= i < |ops| && ListsTold(ops[i], ripemd) ensures Shown(ops[i]) == Shown(others[i]) {
      assert ops[i] in ops && others[i] in others;
      ListingTells(ops[i], others[i], ripemd);
    }
  }

  lemma ShownName(v: OperationValue)
    ensures OperationName(HostOperationOf(Shown(v)).id) == OperationName(HostOperationOf(v).id)
  {
    hide PutTransfer, PutLimitOrderCreate, PutLimitOrderCancel, PutAccountUpdate, PutAccountUpgrade, EarlierName;
  }

  lemma {:induction false} FlatAlike(ops: seq<OperationValue>, others: seq<OperationValue>, n: nat,
                                     ripemd: KeyText.Ripemd160)
    requires |ops| == |others| && n <= |ops|
    requires forall i :: 0 <= i < |ops| ==> TitleScreen(ops, i) == TitleScreen(others, i)
    requires forall i :: 0 <= i < |ops| ==> Listing(ops[i], ripemd) == Listing(others[i], ripemd)
    ensures FlatOperations(ops, n, ripemd) == FlatOperations(others, n, ripemd)
  {
    hide FlatOperations, Listing, TitleScreen, FlatArguments;
    NothingFlat(ops, ripemd);
    NothingFlat(others, ripemd);
    if n > 0 {
      FlatAlike(ops, others, n - 1, ripemd);
      FlatNext(ops, n - 1, ripemd);
      FlatNext(others, n - 1, ripemd);
    }
  }

  lemma SameScreens(ops: seq<OperationValue>, others: seq<OperationValue>, txId: seq<byte>, ripemd: KeyText.Ripemd160)
    requires FlatOperations(ops, |ops|, ripemd) == FlatOperations(others, |others|, ripemd)
    ensures AllScreens(ops, txId, ripemd) == AllScreens(others, txId, ripemd)
  {
  }

  /** Operations that differ in nothing that the screens are about have the same screens. */
  lemma ShownAlike(ops: seq<OperationValue>, others: seq<OperationValue>, txId: seq<byte>, ripemd: KeyText.Ripemd160)
    requires ShownAll(ops) == ShownAll(others)
    ensures AllScreens(ops, txId, ripemd) == AllScreens(others, txId, ripemd)
  {
    hide FlatOperations, Listing, Shown, HostOperationOf, OperationName, AllScreens, Line, Decimal, Cut;
    assert |ops| == |others|;
    forall i | 0 <= i < |ops|
      ensures TitleScreen(ops, i) == TitleScreen(others, i) && Listing(ops[i], ripemd) == Listing(others[i], ripemd)
    {
      assert ShownAll(ops)[i] == ShownAll(others)[i];
      ShownName(ops[i]);
      ShownName(others[i]);
      ShownListing(ops[i], ripemd);
      ShownListing(others[i], ripemd);
    }
    FlatAlike(ops, others, |ops|, ripemd);
    SameScreens(ops, others, txId, ripemd);
  }

  /** The screens of `others` are those of `ops`. */
  ghost predicate Mistaken(ops: seq<OperationValue>, others: seq<OperationValue>, txId: seq<byte>,
                           ripemd: KeyText.Ripemd160) {
    AllSerializable(others) && AllScreens(ops, txId, ripemd) == AllScreens(others, txId, ripemd)
  }

  /**
   * When the screens decide. They determine all that they are about, for every other review with which these operations
   * could be mistaken, if and only if the value line ends behind the last number of every list of every operation.
   */
  lemma ScreensTellExactly(ops: seq<OperationValue>, txId: seq<byte>, ripemd: KeyText.Ripemd160)
    requires AllSerializable(ops)
    ensures (forall i :: 0 <= i < |ops| ==> ListsTold(ops[i], ripemd)) <==>
      forall others :: Mistaken(ops, others, txId, ripemd) ==> ShownAll(others) == ShownAll(ops)
  {
    hide ListsTold, AllScreens, Shown, Listing, Serializable;
    if forall i :: 0 <= i < |ops| ==> ListsTold(ops[i], ripemd) {
      forall others | Mistaken(ops, others, txId, ripemd) ensures ShownAll(others) == ShownAll(ops) {
        ScreensTell(ops, others, txId, ripemd);
      }
    } else {
      var i :| 0 <= i < |ops| && !ListsTold(ops[i], ripemd);
      var others := CutReview(ops, i, txId, ripemd);
      assert ShownAll(others)[i] != ShownAll(ops)[i];
    }
  }

  /** The review that looks the same beyond the cut of one list. */
  lemma CutReview(ops: seq<OperationValue>, i: nat, txId: seq<byte>, ripemd: KeyText.Ripemd160)
    returns (others: seq<OperationValue>)
    requires AllSerializable(ops) && i < |ops| && !ListsTold(ops[i], ripemd)
    ensures Mistaken(ops, others, txId, ripemd) && |others| == |ops| && Shown(others[i]) != Shown(ops[i])
  {
    hide ListsTold, AllScreens, Shown, Listing, Serializable, FlatOperations, OperationName, Line, Decimal, Cut;
    assert ops[i] in ops;
    var w := ListingNotTold(ops[i], ripemd);
    others := ops[i := w];
    SameName(ops[i], w);
    forall k | 0 <= k < |ops|
      ensures TitleScreen(ops, k) == TitleScreen(others, k) && Listing(ops[k], ripemd) == Listing(others[k], ripemd)
      ensures Serializable(others[k])
    {
      assert ops[k] in ops;
    }
    FlatAlike(ops, others, |ops|, ripemd);
    SameScreens(ops, others, txId, ripemd);
  }

  lemma SameName(v: OperationValue, w: OperationValue)
    requires v.UpdateOf? && SameKind(v, w)
    ensures HostOperationOf(v).id == HostOperationOf(w).id
  {
    hide PutAccountUpdate;
  }

  /** Two updates that look alike beyond the cut: with twenty-two votes or more, the last one is free. */
  lemma AlikeBeyondTheCut(u: AccountUpdateValue, o: OptionsValue, ripemd: KeyText.Ripemd160)
    requires u.options == Some(o) && VotesFit(o.votes) && |o.votes| >= 22
    ensures var n := |o.votes| - 1;
      var w := u.(options := Some(o.(votes := o.votes[n := Neighbour(o.votes[n])])));
      Shown(UpdateOf(w)) != Shown(UpdateOf(u)) && Listing(UpdateOf(w), ripemd) == Listing(UpdateOf(u), ripemd)
  {
    hide AssetText, AccountIdText, PermissionListing, Rendered, VoteTexts, Line, Decimal, KeyText.Text;
    var n := |o.votes| - 1;
    NeighbourLooksAlike(o.votes);
    assert o.votes[n := Neighbour(o.votes[n])][n] != o.votes[n];
  }
}
