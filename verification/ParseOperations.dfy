/** What every argument of every operation looks like on the screen, and the parsers that print it. */
module ParseOperations {
  import opened Numerals
  import opened Outcomes
  import opened CText
  import opened Codec
  import opened CodecRoundTrip
  import opened CodecMachine
  import opened Assets
  import opened Times
  import opened Lists
  import opened DecodedLists
  import KeyText
  import Varint

  /** The two lines of a screen. */
  datatype Screen = Screen(title: string, text: string)

  const LABEL_SIZE: nat := 48
  const VALUE_SIZE: nat := 128

  // ---- the texts ----

  function AccountIdText(id: nat): string {
    match id
    case 0 => "committee-account"
    case 1 => "witness-account"
    case 2 => "relaxed-committee-account"
    case 3 => "null-account"
    case 4 => "temp-account"
    case 5 => "proxy-to-self"
    case _ => Decimal(id)
  }

  function BoolText(b: bool): string {
    if b then "True" else "False"
  }

  /** What fits the value line. */
  function Line(s: string): string {
    Cut(s, VALUE_SIZE - 1)
  }

  /** The one date the printer can mean. */
  ghost function DateOf(t: nat): Tm {
    if exists tm :: IsQuadDateOf(tm, t) then
      var tm :| IsQuadDateOf(tm, t);
      tm
    else YearStart(70)
  }

  function TransferScreen(t: Transfer, arg: nat): Option<Screen> {
    match arg
    case 0 => Some(Screen("Amount", AssetText(t.transferAsset)))
    case 1 => Some(Screen("From", AccountIdText(t.fromId)))
    case 2 => Some(Screen("To", AccountIdText(t.toId)))
    case 3 => Some(Screen("Fee", AssetText(t.feeAsset)))
    case _ => None
  }

  ghost function LimitOrderCreateScreen(c: LimitOrderCreate, arg: nat): Option<Screen> {
    match arg
    case 0 => Some(Screen("Seller", AccountIdText(c.sellerId)))
    case 1 => Some(Screen("Amount to Sell", AssetText(c.sellAsset)))
    case 2 => Some(Screen("Amount to Buy", AssetText(c.buyAsset)))
    case 3 => Some(Screen("Expires", TimeText(DateOf(c.expires))))
    case 4 => Some(Screen("Fill or Kill", BoolText(c.fillOrKill)))
    case 5 => Some(Screen("Fee", AssetText(c.feeAsset)))
    case _ => None
  }

  function LimitOrderCancelScreen(c: LimitOrderCancel, arg: nat): Option<Screen> {
    match arg
    case 0 => Some(Screen("Account", AccountIdText(c.accountId)))
    case 1 => Some(Screen("Order Id", Decimal(c.orderId)))
    case 2 => Some(Screen("Fee", AssetText(c.feeAsset)))
    case _ => None
  }

  function AccountUpgradeScreen(u: AccountUpgrade, arg: nat): Option<Screen> {
    match arg
    case 0 => Some(Screen("Account to Upgrade", AccountIdText(u.accountId)))
    case 1 => Some(Screen("Upgrade Path", Line(if u.upgradeLtm then "Lifetime Membership" else "None / No Upgrade")))
    case 2 => Some(Screen("Fee", AssetText(u.feeAsset)))
    case _ => None
  }

  function UnsupportedScreen(arg: nat): Option<Screen> {
    match arg
    case 0 => Some(Screen("Unsupported", Line("Operation")))
    case 1 => Some(Screen("Confirm at", Line("Own Risk.")))
    case _ => None
  }

  function UnknownScreen(arg: nat): Option<Screen> {
    match arg
    case 0 => Some(Screen("Unrecognized", Line("Operation")))
    case 1 => Some(Screen("Confirm at", Line("Own Risk.")))
    case _ => None
  }

  /** The header of an optional part, and what follows it while the countdown is at `remain`. */
  function PermissionScreen(mem: Memory, who: string, p: Option<Permission>, remain: nat, ripemd: KeyText.Ripemd160):
    Option<Screen>
  {
    if remain == 0 then Some(Screen(who + " Permission", Line(if p.Some? then "New Data" else "No Change")))
    else if p.None? || p.value.firstAccountAuth < 0 || p.value.firstKeyAuth < 0 then None
    else
      match remain
      case 5 => Some(Screen(who + " Threshold", Line(Decimal(p.value.weightThreshold))))
      case 4 => Some(Screen("Account Auths", Line("Count: " + Decimal(p.value.numAccountAuths))))
      case 3 => Some(Screen("Account Auths",
                            Line(Rendered(AccountTexts(AccountsOf(mem, p.value.firstAccountAuth,
                                p.value.numAccountAuths))))))
      case 2 => Some(Screen("Key Auths", Line("Count: " + Decimal(p.value.numKeyAuths))))
      case 1 => Some(Screen("Key Auths",
                            Line(Rendered(KeyTexts(KeysOf(mem, p.value.firstKeyAuth, p.value.numKeyAuths), ripemd)))))
      case _ => None
  }

  function OptionsScreen(mem: Memory, o: Option<AccountOptions>, remain: nat,
                         ripemd: KeyText.Ripemd160): Option<Screen> {
    if remain == 0 then Some(Screen("Account Options", Line(if o.Some? then "New Data" else "No Change")))
    else if o.None? || o.value.votes < 0 || |o.value.memoPubkey| != 33 then None
    else
      match remain
      case 6 => Some(Screen("Memo Public Key", KeyText.Text(o.value.memoPubkey, ripemd)))
      case 5 => Some(Screen("Voting Account", AccountIdText(o.value.votingAccount)))
      case 4 => Some(Screen("Num Witnesses", Line(Decimal(o.value.numWitnesses))))
      case 3 => Some(Screen("Num Committee", Line(Decimal(o.value.numCommittee))))
      case 2 => Some(Screen("Votes", Line("Count: " + Decimal(o.value.numVotes))))
      case 1 => Some(Screen("Votes", Line(Rendered(VoteTexts(VotesOf(mem, o.value.votes, o.value.numVotes))))))
      case _ => None
  }

  function AccountUpdateScreen(mem: Memory, u: AccountUpdate, arg: nat, remain: nat, ripemd: KeyText.Ripemd160):
    Option<Screen>
  {
    match arg
    case 0 => Some(Screen("Account to Update", AccountIdText(u.accountId)))
    case 1 => PermissionScreen(mem, "Owner", u.ownerPermission, remain, ripemd)
    case 2 => PermissionScreen(mem, "Active", u.activePermission, remain, ripemd)
    case 3 => OptionsScreen(mem, u.accountOptions, remain, ripemd)
    case 4 => Some(Screen("Fee", AssetText(u.feeAsset)))
    case _ => None
  }

  /** How many sub-screens an argument has: all of a permission or of the options, if present. */
  function Subscreens(u: AccountUpdate, arg: nat): nat {
    match arg
    case 1 => if u.ownerPermission.Some? then 5 else 0
    case 2 => if u.activePermission.Some? then 5 else 0
    case 3 => if u.accountOptions.Some? then 6 else 0
    case _ => 0
  }

  /** Printing a header starts the countdown, one above the number of sub-screens. */
  function Countdown(subscreens: nat, remain: nat): nat {
    if remain == 0 && subscreens > 0 then subscreens + 1 else remain
  }

  // ---- decoded values can be printed ----

  lemma LittleBound(b: seq<byte>)
    ensures Little(b) < Pow(256, |b|)
  {
    if b != [] {
      LittleBound(b[1..]);
    }
  }

  lemma AssetsFit()
    ensures forall w :: AssetIn(w).Some? ==> AssetFitsText(AssetIn(w).value.0)
  {
    forall w | AssetIn(w).Some? ensures AssetFitsText(AssetIn(w).value.0) {
      LittleBound(w[..8]);
      Widths();
    }
  }

  lemma IdsFit()
    ensures forall w :: Varint48In(w).Some? ==> Varint48In(w).value.0 < Varint.BOUND48
  {
  }

  lemma TimesFit()
    ensures forall w :: LittleIn(w, 4).Some? ==> LittleIn(w, 4).value.0 < UINT32
  {
    forall w | LittleIn(w, 4).Some? ensures LittleIn(w, 4).value.0 < UINT32 {
      LittleBound(w[..4]);
      Widths();
    }
  }

  // ---- printing two lines ----

  predicate Buffers(paramLabel: array<char>, paramValue: array<char>) {
    paramLabel != paramValue && paramLabel.Length == LABEL_SIZE && paramValue.Length == VALUE_SIZE
  }

  predicate Shows(paramLabel: array<char>, paramValue: array<char>, s: Screen)
    reads paramLabel, paramValue
  {
    IsText(paramLabel, 0, s.title) && IsText(paramValue, 0, s.text)
  }

  method PrintLabel(paramLabel: array<char>, s: string)
    requires |s| < paramLabel.Length && NoEnd(s)
    modifies paramLabel
    ensures IsText(paramLabel, 0, s)
  {
    CutShort(s, paramLabel.Length - 1);
    hide Cut;
    Snprintf(paramLabel, 0, paramLabel.Length, s);
  }

  method ShowText(paramLabel: array<char>, paramValue: array<char>, l: string, s: string)
    requires Buffers(paramLabel, paramValue) && |l| < LABEL_SIZE && NoEnd(l) && NoEnd(s)
    modifies paramLabel, paramValue
    ensures Shows(paramLabel, paramValue, Screen(l, Line(s)))
  {
    hide Cut;
    PrintLabel(paramLabel, l);
    Snprintf(paramValue, 0, VALUE_SIZE, s);
  }

  method ShowAsset(paramLabel: array<char>, paramValue: array<char>, l: string, a: Asset)
    requires Buffers(paramLabel, paramValue) && |l| < LABEL_SIZE && NoEnd(l) && AssetFitsText(a)
    modifies paramLabel, paramValue
    ensures Shows(paramLabel, paramValue, Screen(l, AssetText(a)))
  {
    hide AssetText;
    PrintLabel(paramLabel, l);
    var _ := PrettyPrintBtsAssetType(a, paramValue, 0);
  }

  lemma NamesFit(id: nat)
    requires id < 6
    ensures |AccountIdText(id)| < 32 && NoEnd(AccountIdText(id))
  {
    hide Decimal, AccountIdText;
    if id < 3 {
      FirstNamesFit(id);
    } else {
      LastNamesFit(id);
    }
  }

  lemma FirstNamesFit(id: nat)
    requires id < 3
    ensures |AccountIdText(id)| < 32 && NoEnd(AccountIdText(id))
  {
    hide Decimal;
  }

  lemma LastNamesFit(id: nat)
    requires 3 <= id < 6
    ensures |AccountIdText(id)| < 32 && NoEnd(AccountIdText(id))
  {
    hide Decimal;
  }

  method ShowAccount(paramLabel: array<char>, paramValue: array<char>, l: string, id: nat)
    requires Buffers(paramLabel, paramValue) && |l| < LABEL_SIZE && NoEnd(l) && id < Varint.BOUND48
    modifies paramLabel, paramValue
    ensures Shows(paramLabel, paramValue, Screen(l, AccountIdText(id)))
  {
    hide Decimal, Cut;
    PrintLabel(paramLabel, l);
    if id < 6 {
      NamesFit(id);
      CutShort(AccountIdText(id), 31);
      Snprintf(paramValue, 0, 32, AccountIdText(id));
    } else {
      IdLength(id);
      Ui64toa(id, paramValue, 0);
    }
  }

  method ShowTime(paramLabel: array<char>, paramValue: array<char>, l: string, t: nat)
    requires Buffers(paramLabel, paramValue) && |l| < LABEL_SIZE && NoEnd(l) && t < UINT32
    modifies paramLabel, paramValue
    ensures Shows(paramLabel, paramValue, Screen(l, TimeText(DateOf(t))))
  {
    hide TimeText, IsQuadDateOf;
    PrintLabel(paramLabel, l);
    ghost var tm;
    var n, date := PrettyPrintBtsTimeType(t, paramValue, 0);
    tm := date;
    QuadDateUnique(tm, DateOf(t), t);
  }

  method ShowAccounts(paramLabel: array<char>, paramValue: array<char>, l: string, mem: Memory, first: nat, count: nat)
    requires Buffers(paramLabel, paramValue) && |l| < LABEL_SIZE && NoEnd(l)
    requires SeekIn(Window(mem, first, WHOLE), NO_AUTH, count).Some?
    modifies paramLabel, paramValue
    ensures Shows(paramLabel, paramValue, Screen(l, Line(Rendered(AccountTexts(AccountsOf(mem, first, count))))))
  {
    hide Rendered, AccountTexts, AccountsOf, SeekIn, Window, Cut;
    PrintLabel(paramLabel, l);
    var _ := PrettyPrintBtsAccountAuthsList(mem, first, count, paramValue, 0, VALUE_SIZE);
  }

  method ShowKeys(paramLabel: array<char>, paramValue: array<char>, l: string, mem: Memory, first: nat, count: nat,
                  ripemd: KeyText.Ripemd160)
    requires Buffers(paramLabel, paramValue) && |l| < LABEL_SIZE && NoEnd(l)
    modifies paramLabel, paramValue
    ensures Shows(paramLabel, paramValue, Screen(l, Line(Rendered(KeyTexts(KeysOf(mem, first, count), ripemd)))))
  {
    hide Rendered, KeyTexts, KeysOf, Window, Cut;
    PrintLabel(paramLabel, l);
    var _ := PrettyPrintBtsKeyAuthsList(mem, first, count, paramValue, 0, VALUE_SIZE, ripemd);
  }

  method ShowVotes(paramLabel: array<char>, paramValue: array<char>, l: string, mem: Memory, first: nat, count: nat)
    requires Buffers(paramLabel, paramValue) && |l| < LABEL_SIZE && NoEnd(l)
    modifies paramLabel, paramValue
    ensures Shows(paramLabel, paramValue, Screen(l, Line(Rendered(VoteTexts(VotesOf(mem, first, count))))))
  {
    hide Rendered, VoteTexts, VotesOf, Window, Cut;
    PrintLabel(paramLabel, l);
    var _ := PrettyPrintBtsVotesList(mem, first, count, paramValue, 0, VALUE_SIZE);
  }

  method ShowKey(paramLabel: array<char>, paramValue: array<char>, l: string, key: KeyText.Key,
                 ripemd: KeyText.Ripemd160)
    requires Buffers(paramLabel, paramValue) && |l| < LABEL_SIZE && NoEnd(l)
    modifies paramLabel, paramValue
    ensures Shows(paramLabel, paramValue, Screen(l, KeyText.Text(key, ripemd)))
  {
    hide KeyText.Text;
    PrintLabel(paramLabel, l);
    var _ := KeyText.PrettyPrintPublicKey(key, paramValue, ripemd);
    KeyText.TextNoEnd(key, ripemd);
  }

  method ShowNumber(paramLabel: array<char>, paramValue: array<char>, l: string, before: string, v: nat)
    requires Buffers(paramLabel, paramValue) && |l| < LABEL_SIZE && NoEnd(l) && NoEnd(before)
    modifies paramLabel, paramValue
    ensures Shows(paramLabel, paramValue, Screen(l, Line(before + Decimal(v))))
  {
    hide Decimal, Cut;
    DecimalNoEnd(v);
    ShowText(paramLabel, paramValue, l, before + Decimal(v));
  }

  /** The buffers show s, or are as they were if there is nothing to show. */
  twostate predicate Prints(paramLabel: array<char>, paramValue: array<char>, new s: Option<Screen>)
    reads paramLabel, paramValue
  {
    match s
    case Some(x) => Shows(paramLabel, paramValue, x)
    case None => paramLabel[..] == old(paramLabel[..]) && paramValue[..] == old(paramValue[..])
  }

  // ---- the parsers ----

  method ParseTransferOperation(mem: Memory, buffer: nat, bufferLength: nat, argNum: nat,
                                paramLabel: array<char>, paramValue: array<char>)
    returns (r: Result<()>)
    requires Buffers(paramLabel, paramValue)
    modifies paramLabel, paramValue
    ensures var op := TransferIn(Window(mem, buffer, bufferLength), buffer + bufferLength);
      && (r.Ok? <==> op.Some?)
      && Prints(paramLabel, paramValue, if op.Some? then TransferScreen(op.value.0, argNum) else None)
  {
    hide AssetIn, VarintIn, OptionalMemoIn, ExtensionsIn, Window, AssetFitsText, AccountIdText, AssetText, NoEnd,
         IsText;
    AssetsFit();
    IdsFit();
    LabelsFit();
    var read :- DeserializeBtsOperationTransfer(mem, buffer, bufferLength);
    var op := read.0;
    if argNum == 0 {
      ShowAsset(paramLabel, paramValue, "Amount", op.transferAsset);
    } else if argNum == 1 {
      ShowAccount(paramLabel, paramValue, "From", op.fromId);
    } else if argNum == 2 {
      ShowAccount(paramLabel, paramValue, "To", op.toId);
    } else if argNum == 3 {
      ShowAsset(paramLabel, paramValue, "Fee", op.feeAsset);
    }
    return Ok(());
  }

  lemma LabelsFit()
    ensures NoEnd("Amount") && NoEnd("From") && NoEnd("To") && NoEnd("Fee")
  {
  }

  method ParseLimitOrderCreateOperation(mem: Memory, buffer: nat, bufferLength: nat, argNum: nat,
                                        paramLabel: array<char>, paramValue: array<char>)
    returns (r: Result<()>)
    requires Buffers(paramLabel, paramValue)
    modifies paramLabel, paramValue
    ensures var op := LimitOrderCreateIn(Window(mem, buffer, bufferLength), buffer + bufferLength);
      && (r.Ok? <==> op.Some?)
      && Prints(paramLabel, paramValue, if op.Some? then LimitOrderCreateScreen(op.value.0, argNum) else None)
  {
    hide AssetIn, VarintIn, BoolIn, LittleIn, ExtensionsIn, Window, AssetFitsText, AccountIdText, AssetText, TimeText,
         DateOf, NoEnd, IsText, Cut;
    AssetsFit();
    IdsFit();
    TimesFit();
    OrderLabelsFit();
    var read :- DeserializeBtsOperationLimitOrderCreate(mem, buffer, bufferLength);
    var op := read.0;
    if argNum == 0 {
      ShowAccount(paramLabel, paramValue, "Seller", op.sellerId);
    } else if argNum == 1 {
      ShowAsset(paramLabel, paramValue, "Amount to Sell", op.sellAsset);
    } else if argNum == 2 {
      ShowAsset(paramLabel, paramValue, "Amount to Buy", op.buyAsset);
    } else if argNum == 3 {
      ShowTime(paramLabel, paramValue, "Expires", op.expires);
    } else if argNum == 4 {
      ShowBool(paramLabel, paramValue, "Fill or Kill", op.fillOrKill);
    } else if argNum == 5 {
      ShowAsset(paramLabel, paramValue, "Fee", op.feeAsset);
    }
    return Ok(());
  }

  lemma OrderLabelsFit()
    ensures NoEnd("Seller") && NoEnd("Amount to Sell") && NoEnd("Amount to Buy") && NoEnd("Expires")
    ensures NoEnd("Fill or Kill") && NoEnd("Fee")
  {
  }

  method ShowBool(paramLabel: array<char>, paramValue: array<char>, l: string, b: bool)
    requires Buffers(paramLabel, paramValue) && |l| < LABEL_SIZE && NoEnd(l)
    modifies paramLabel, paramValue
    ensures Shows(paramLabel, paramValue, Screen(l, BoolText(b)))
  {
    PrintLabel(paramLabel, l);
    Strcpy(paramValue, 0, BoolText(b));
  }

  method ParseLimitOrderCancelOperation(mem: Memory, buffer: nat, bufferLength: nat, argNum: nat,
                                        paramLabel: array<char>, paramValue: array<char>)
    returns (r: Result<()>)
    requires Buffers(paramLabel, paramValue)
    modifies paramLabel, paramValue
    ensures var op := LimitOrderCancelIn(Window(mem, buffer, bufferLength), buffer + bufferLength);
      && (r.Ok? <==> op.Some?)
      && Prints(paramLabel, paramValue, if op.Some? then LimitOrderCancelScreen(op.value.0, argNum) else None)
  {
    hide AssetIn, VarintIn, ExtensionsIn, Window, AssetFitsText, AccountIdText, AssetText, Decimal, NoEnd, IsText;
    AssetsFit();
    IdsFit();
    CancelLabelsFit();
    var read :- DeserializeBtsOperationLimitOrderCancel(mem, buffer, bufferLength);
    var op := read.0;
    if argNum == 0 {
      ShowAccount(paramLabel, paramValue, "Account", op.accountId);
    } else if argNum == 1 {
      PrintLabel(paramLabel, "Order Id");
      IdLength(op.orderId);
      Ui64toa(op.orderId, paramValue, 0);
    } else if argNum == 2 {
      ShowAsset(paramLabel, paramValue, "Fee", op.feeAsset);
    }
    return Ok(());
  }

  lemma CancelLabelsFit()
    ensures NoEnd("Account") && NoEnd("Order Id") && NoEnd("Fee")
  {
  }

  method ParseAccountUpgradeOperation(mem: Memory, buffer: nat, bufferLength: nat, argNum: nat,
                                      paramLabel: array<char>, paramValue: array<char>)
    returns (r: Result<()>)
    requires Buffers(paramLabel, paramValue)
    modifies paramLabel, paramValue
    ensures var op := AccountUpgradeIn(Window(mem, buffer, bufferLength), buffer + bufferLength);
      && (r.Ok? <==> op.Some?)
      && Prints(paramLabel, paramValue, if op.Some? then AccountUpgradeScreen(op.value.0, argNum) else None)
  {
    hide AssetIn, VarintIn, BoolIn, ExtensionsIn, Window, AssetFitsText, AccountIdText, AssetText, Cut, NoEnd, IsText;
    AssetsFit();
    IdsFit();
    UpgradeLabelsFit();
    var read :- DeserializeBtsOperationAccountUpgrade(mem, buffer, bufferLength);
    var op := read.0;
    if argNum == 0 {
      ShowAccount(paramLabel, paramValue, "Account to Upgrade", op.accountId);
    } else if argNum == 1 {
      ShowText(paramLabel, paramValue, "Upgrade Path",
          if op.upgradeLtm then "Lifetime Membership" else "None / No Upgrade");
    } else if argNum == 2 {
      ShowAsset(paramLabel, paramValue, "Fee", op.feeAsset);
    }
    return Ok(());
  }

  lemma UpgradeLabelsFit()
    ensures NoEnd("Account to Upgrade") && NoEnd("Upgrade Path") && NoEnd("Fee")
    ensures NoEnd("Lifetime Membership") && NoEnd("None / No Upgrade")
  {
  }

  method ParseUnsupportedOperation(argNum: nat, paramLabel: array<char>, paramValue: array<char>)
    requires Buffers(paramLabel, paramValue)
    modifies paramLabel, paramValue
    ensures Prints(paramLabel, paramValue, UnsupportedScreen(argNum))
  {
    hide IsText, Cut;
    if argNum == 0 {
      ShowText(paramLabel, paramValue, "Unsupported", "Operation");
    } else if argNum == 1 {
      ShowText(paramLabel, paramValue, "Confirm at", "Own Risk.");
    }
  }

  method ParseUnknownOperation(argNum: nat, paramLabel: array<char>, paramValue: array<char>)
    requires Buffers(paramLabel, paramValue)
    modifies paramLabel, paramValue
    ensures Prints(paramLabel, paramValue, UnknownScreen(argNum))
  {
    hide IsText, Cut;
    if argNum == 0 {
      ShowText(paramLabel, paramValue, "Unrecognized", "Operation");
    } else if argNum == 1 {
      ShowText(paramLabel, paramValue, "Confirm at", "Own Risk.");
    }
  }

  // ---- account update ----

  lemma PermissionLabelsFit(who: string)
    requires who == "Owner" || who == "Active"
    ensures NoEnd(who + " Permission") && |who + " Permission"| < LABEL_SIZE
    ensures NoEnd(who + " Threshold") && |who + " Threshold"| < LABEL_SIZE
  {
  }

  lemma ListLabelsFit()
    ensures NoEnd("Account Auths") && NoEnd("Key Auths") && NoEnd("Count: ") && NoEnd("")
    ensures NoEnd("New Data") && NoEnd("No Change")
  {
  }

  /** The branches for one permission; the countdown starts when its header is printed. */
  method PrintPermission(mem: Memory, who: string, p: Option<Permission>, remain: nat, paramLabel: array<char>,
                         paramValue: array<char>, ripemd: KeyText.Ripemd160)
    returns (next: nat)
    requires Buffers(paramLabel, paramValue) && PermissionReadable(mem, p) && (who == "Owner" || who == "Active")
    requires remain > 0 ==> p.Some?
    modifies paramLabel, paramValue
    ensures next == Countdown(if p.Some? then 5 else 0, remain)
    ensures Prints(paramLabel, paramValue, PermissionScreen(mem, who, p, remain, ripemd))
  {
    hide IsText, Cut, NoEnd, Decimal, Rendered, AccountTexts, KeyTexts, AccountsOf, KeysOf, SeekIn;
    PermissionLabelsFit(who);
    ListLabelsFit();
    next := remain;
    if remain == 0 {
      next := if p.Some? then 6 else 0;
      ShowText(paramLabel, paramValue, who + " Permission", if p.Some? then "New Data" else "No Change");
    } else if remain == 5 {
      assert "" + Decimal(p.value.weightThreshold) == Decimal(p.value.weightThreshold);
      ShowNumber(paramLabel, paramValue, who + " Threshold", "", p.value.weightThreshold);
    } else if remain == 4 {
      ShowNumber(paramLabel, paramValue, "Account Auths", "Count: ", p.value.numAccountAuths);
    } else if remain == 3 {
      ShowAccounts(paramLabel, paramValue, "Account Auths", mem, p.value.firstAccountAuth, p.value.numAccountAuths);
    } else if remain == 2 {
      ShowNumber(paramLabel, paramValue, "Key Auths", "Count: ", p.value.numKeyAuths);
    } else if remain == 1 {
      ShowKeys(paramLabel, paramValue, "Key Auths", mem, p.value.firstKeyAuth, p.value.numKeyAuths, ripemd);
    }
  }

  lemma OptionsLabelsFit()
    ensures NoEnd("Account Options") && NoEnd("Memo Public Key") && NoEnd("Voting Account") && NoEnd("Num Witnesses")
    ensures NoEnd("Num Committee") && NoEnd("Votes") && NoEnd("Count: ") && NoEnd("")
    ensures NoEnd("New Data") && NoEnd("No Change")
  {
  }

  method PrintOptions(mem: Memory, o: Option<AccountOptions>, remain: nat, paramLabel: array<char>,
                      paramValue: array<char>, ripemd: KeyText.Ripemd160)
    returns (next: nat)
    requires Buffers(paramLabel, paramValue) && OptionsReadable(o)
    requires remain > 0 ==> o.Some?
    modifies paramLabel, paramValue
    ensures next == Countdown(if o.Some? then 6 else 0, remain)
    ensures Prints(paramLabel, paramValue, OptionsScreen(mem, o, remain, ripemd))
  {
    hide IsText, Cut, NoEnd, Decimal, Rendered, VoteTexts, VotesOf, AccountIdText, KeyText.Text;
    OptionsLabelsFit();
    next := remain;
    if remain == 0 {
      next := if o.Some? then 7 else 0;
      ShowText(paramLabel, paramValue, "Account Options", if o.Some? then "New Data" else "No Change");
    } else if remain == 6 {
      ShowKey(paramLabel, paramValue, "Memo Public Key", o.value.memoPubkey, ripemd);
    } else if remain == 5 {
      ShowAccount(paramLabel, paramValue, "Voting Account", o.value.votingAccount);
    } else if remain == 4 {
      assert "" + Decimal(o.value.numWitnesses) == Decimal(o.value.numWitnesses);
      ShowNumber(paramLabel, paramValue, "Num Witnesses", "", o.value.numWitnesses);
    } else if remain == 3 {
      assert "" + Decimal(o.value.numCommittee) == Decimal(o.value.numCommittee);
      ShowNumber(paramLabel, paramValue, "Num Committee", "", o.value.numCommittee);
    } else if remain == 2 {
      ShowNumber(paramLabel, paramValue, "Votes", "Count: ", o.value.numVotes);
    } else if remain == 1 {
      ShowVotes(paramLabel, paramValue, "Votes", mem, o.value.votes, o.value.numVotes);
    }
  }

  lemma UpdateLabelsFit()
    ensures NoEnd("Account to Update") && NoEnd("Fee")
  {
  }

  /** The account update in a window, if there is one. */
  function UpdateAt(mem: Memory, buffer: nat, bufferLength: nat): Option<AccountUpdate> {
    match AccountUpdateIn(Window(mem, buffer, bufferLength), buffer + bufferLength)
    case None => None
    case Some((u, _)) => Some(u)
  }

  /** A countdown above zero belongs to the parts of a present permission or of present options. */
  predicate CountdownFits(op: Option<AccountUpdate>, argNum: nat, remain: nat) {
    match op
    case None => true
    case Some(u) => 1 <= argNum <= 3 && remain > 0 ==> Subscreens(u, argNum) > 0
  }

  ghost function UpdateScreen(mem: Memory, op: Option<AccountUpdate>, argNum: nat, remain: nat,
                              ripemd: KeyText.Ripemd160):
    Option<Screen>
  {
    match op
    case None => None
    case Some(u) => AccountUpdateScreen(mem, u, argNum, remain, ripemd)
  }

  function UpdateCountdown(op: Option<AccountUpdate>, argNum: nat, remain: nat): nat {
    match op
    case None => remain
    case Some(u) => Countdown(Subscreens(u, argNum), remain)
  }

  /** `remain` is subargRemainP1, which is only above zero while the sub-screens of a present part are being shown. */
  method ParseAccountUpdateOperation(mem: Memory, buffer: nat, bufferLength: nat, argNum: nat, remain: nat,
                                     paramLabel: array<char>, paramValue: array<char>, ripemd: KeyText.Ripemd160)
    returns (r: Result<()>, next: nat)
    requires Buffers(paramLabel, paramValue) && bufferLength < UINT32
    requires CountdownFits(UpdateAt(mem, buffer, bufferLength), argNum, remain)
    modifies paramLabel, paramValue
    ensures var op := UpdateAt(mem, buffer, bufferLength);
      && (r.Ok? <==> op.Some?)
      && Prints(paramLabel, paramValue, UpdateScreen(mem, op, argNum, remain, ripemd))
      && next == UpdateCountdown(op, argNum, remain)
  {
    hide AssetIn, VarintIn, OptionalPermissionIn, OptionalAccountOptionsIn, ExtensionsIn, Window, AssetFitsText,
         AccountIdText, AssetText, NoEnd, IsText, PermissionScreen, OptionsScreen, PermissionReadable, OptionsReadable;
    AssetsFit();
    IdsFit();
    UpdateLabelsFit();
    next := remain;
    var read := DeserializeBtsOperationAccountUpdate(mem, buffer, bufferLength);
    if read.Throw? {
      return Throw(read.error), next;
    }
    AccountUpdateReadable(mem, buffer, bufferLength);
    var op := read.value.0;
    if argNum == 0 {
      ShowAccount(paramLabel, paramValue, "Account to Update", op.accountId);
    } else if argNum == 1 {
      next := PrintPermission(mem, "Owner", op.ownerPermission, remain, paramLabel, paramValue, ripemd);
    } else if argNum == 2 {
      next := PrintPermission(mem, "Active", op.activePermission, remain, paramLabel, paramValue, ripemd);
    } else if argNum == 3 {
      next := PrintOptions(mem, op.accountOptions, remain, paramLabel, paramValue, ripemd);
    } else if argNum == 4 {
      ShowAsset(paramLabel, paramValue, "Fee", op.feeAsset);
    }
    r := Ok(());
  }
}
