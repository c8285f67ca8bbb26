/** Operations as they are meant, and the list of screens that is to show them. */
module Listings {
  import opened Numerals
  import opened Outcomes
  import opened CodecRoundTrip
  import opened OperationRoundTrip
  import opened CText
  import opened Assets
  import opened Times
  import opened Lists
  import opened ParseOperations
  import opened Screens
  import HostEncoding
  import KeyText

  // ---- operations as they are meant ----

  datatype OperationValue = TransferOf(transfer: TransferValue) | OrderOf(order: LimitOrderCreateValue)
                          | CancelOf(cancel: LimitOrderCancelValue) | UpdateOf(update: AccountUpdateValue)
                          | UpgradeOf(upgrade: AccountUpgradeValue) | OtherOf(id: byte, payload: seq<byte>)

  predicate OperationFits(v: OperationValue) {
    match v
    case TransferOf(t) => TransferFits(t)
    case OrderOf(c) => LimitOrderCreateFits(c)
    case CancelOf(c) => LimitOrderCancelFits(c)
    case UpdateOf(u) => AccountUpdateFits(u)
    case UpgradeOf(u) => AccountUpgradeFits(u)
    case OtherOf(id, _) => id !in {0, 1, 2, 6, 8}
  }

  /** What the host serializes. */
  function HostOperationOf(v: OperationValue): HostEncoding.HostOperation {
    match v
    case TransferOf(t) => HostEncoding.HostOperation(0, PutTransfer(t, []))
    case OrderOf(c) => HostEncoding.HostOperation(1, PutLimitOrderCreate(c, []))
    case CancelOf(c) => HostEncoding.HostOperation(2, PutLimitOrderCancel(c, []))
    case UpdateOf(u) => HostEncoding.HostOperation(6, PutAccountUpdate(u, []))
    case UpgradeOf(u) => HostEncoding.HostOperation(8, PutAccountUpgrade(u, []))
    case OtherOf(id, payload) => HostEncoding.HostOperation(id, payload)
  }

  // ---- the screens as they are meant ----

  function PermissionListing(who: string, p: Option<PermissionValue>, ripemd: KeyText.Ripemd160): seq<Screen> {
    match p
    case None => [Screen(who + " Permission", Line("No Change"))]
    case Some(v) => [
      Screen(who + " Permission", Line("New Data")),
      Screen(who + " Threshold", Line(Decimal(v.weightThreshold))),
      Screen("Account Auths", Line("Count: " + Decimal(|v.accounts|))),
      Screen("Account Auths", Line(Rendered(AccountTexts(v.accounts)))),
      Screen("Key Auths", Line("Count: " + Decimal(|v.keys|))),
      Screen("Key Auths", Line(Rendered(KeyTexts(v.keys, ripemd))))]
  }

  function OptionsListing(o: Option<OptionsValue>, ripemd: KeyText.Ripemd160): seq<Screen> {
    match o
    case None => [Screen("Account Options", Line("No Change"))]
    case Some(v) => [
      Screen("Account Options", Line("New Data")),
      Screen("Memo Public Key", if |v.memoPubkey| == 33 then KeyText.Text(v.memoPubkey, ripemd) else ""),
      Screen("Voting Account", AccountIdText(v.votingAccount)),
      Screen("Num Witnesses", Line(Decimal(v.numWitnesses))),
      Screen("Num Committee", Line(Decimal(v.numCommittee))),
      Screen("Votes", Line("Count: " + Decimal(|v.votes|))),
      Screen("Votes", Line(Rendered(VoteTexts(v.votes))))]
  }

  /** For every argument of an operation, its screens: the argument itself, and its parts if it has some. */
  ghost function Listing(v: OperationValue, ripemd: KeyText.Ripemd160): seq<seq<Screen>> {
    match v
    case TransferOf(t) => [
      [Screen("Amount", AssetText(t.transferAsset))], [Screen("From", AccountIdText(t.fromId))],
      [Screen("To", AccountIdText(t.toId))], [Screen("Fee", AssetText(t.feeAsset))]]
    case OrderOf(c) => [
      [Screen("Seller", AccountIdText(c.sellerId))], [Screen("Amount to Sell", AssetText(c.sellAsset))],
      [Screen("Amount to Buy", AssetText(c.buyAsset))], [Screen("Expires", TimeText(DateOf(c.expires)))],
      [Screen("Fill or Kill", BoolText(c.fillOrKill))], [Screen("Fee", AssetText(c.feeAsset))]]
    case CancelOf(c) => [
      [Screen("Account", AccountIdText(c.accountId))], [Screen("Order Id", Decimal(c.orderId))],
      [Screen("Fee", AssetText(c.feeAsset))]]
    case UpdateOf(u) => [
      [Screen("Account to Update", AccountIdText(u.accountId))], PermissionListing("Owner", u.owner, ripemd),
      PermissionListing("Active", u.active, ripemd), OptionsListing(u.options, ripemd),
      [Screen("Fee", AssetText(u.feeAsset))]]
    case UpgradeOf(u) => [
      [Screen("Account to Upgrade", AccountIdText(u.accountId))],
      [Screen("Upgrade Path", Line(if u.upgradeLtm then "Lifetime Membership" else "None / No Upgrade"))],
      [Screen("Fee", AssetText(u.feeAsset))]]
    case OtherOf(id, _) => [
      [Screen(if id < 49 then "Unsupported" else "Unrecognized", Line("Operation"))],
      [Screen("Confirm at", Line("Own Risk."))]]
  }

  // ---- the screens in order ----

  function FlatArguments(l: seq<seq<Screen>>, n: nat): seq<Screen> {
    if n == 0 || n > |l| then [] else FlatArguments(l, n - 1) + l[n - 1]
  }

  function TitleScreen(ops: seq<OperationValue>, i: nat): Screen
    requires i < |ops|
  {
    Screen(Cut("Operation " + Decimal(i + 1) + " of " + Decimal(|ops|), 47),
           Line(OperationName(HostOperationOf(ops[i]).id)))
  }

  /** The first n operations: for each its name, and then every argument with all its parts. */
  ghost function FlatOperations(ops: seq<OperationValue>, n: nat, ripemd: KeyText.Ripemd160): seq<Screen> {
    if n == 0 || n > |ops| then [] else
      var l := Listing(ops[n - 1], ripemd);
      FlatOperations(ops, n - 1, ripemd) + [TitleScreen(ops, n - 1)] + FlatArguments(l, |l|)
  }

  /** All that is to be confirmed. */
  ghost function AllScreens(ops: seq<OperationValue>, txId: seq<byte>, ripemd: KeyText.Ripemd160): seq<Screen> {
    [Screen("Confirm", "Transaction"), Screen("Tx ID", TxIdText(txId))] + FlatOperations(ops, |ops|, ripemd)
  }

  /** The screen in a place of a list, if the list is that long. */
  function At(screens: seq<Screen>, k: nat): Option<Screen> {
    if k < |screens| then Some(screens[k]) else None
  }

  lemma {:induction false} FlatArgumentAt(l: seq<seq<Screen>>, a: nat, k: nat, n: nat)
    requires a < n <= |l| && k < |l[a]|
    ensures |FlatArguments(l, a)| + k < |FlatArguments(l, n)|
    ensures FlatArguments(l, n)[|FlatArguments(l, a)| + k] == l[a][k]
  {
    if a < n - 1 {
      FlatArgumentAt(l, a, k, n - 1);
    }
  }

  lemma {:induction false} FlatOperationAt(ops: seq<OperationValue>, i: nat, j: nat, n: nat, ripemd: KeyText.Ripemd160)
    requires i < n <= |ops|
    requires var l := Listing(ops[i], ripemd); j <= |FlatArguments(l, |l|)|
    ensures var l := Listing(ops[i], ripemd);
      var at := |FlatOperations(ops, i, ripemd)| + j;
      && at < |FlatOperations(ops, n, ripemd)|
      && FlatOperations(ops, n, ripemd)[at] == if j == 0 then TitleScreen(ops, i) else FlatArguments(l, |l|)[j - 1]
  {
    hide Listing, TitleScreen, FlatArguments;
    if i < n - 1 {
      FlatOperationAt(ops, i, j, n - 1, ripemd);
    }
  }
}
