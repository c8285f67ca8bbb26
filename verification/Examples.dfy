/**
 * Transactions that come with the application, from what they mean to the bytes that are serialized and to the screens
 * on which they are reviewed, all of it written out.
 */
module Examples {
  import opened Numerals
  import opened Outcomes
  import opened Codec
  import opened CodecRoundTrip
  import opened OperationRoundTrip
  import opened CText
  import opened Assets
  import opened Times
  import opened Lists
  import opened ParseOperations
  import opened Screens
  import opened Listings
  import HostEncoding
  import RoundTrip
  import StreamMeaning
  import KeyText

  const NOTHING := ExtensionsValue(0, [])

  const TRANSFER := TransferValue(Asset(10420, 0), 1152620, 1152699, Asset(4000000, 0), None, NOTHING)
  const ORDER := LimitOrderCreateValue(Asset(25000, 0), 1152620, Asset(2000000, 0), Asset(1000, 105), 1543895655, false,
                                       NOTHING)
  const CANCEL := LimitOrderCancelValue(Asset(2500, 0), 1152620, 51840, NOTHING)
  const UPGRADE := AccountUpgradeValue(Asset(303100000, 0), 1152620, true, NOTHING)

  // ---- the bytes ----

  lemma {:induction false} LittleInFront(v: nat, size: nat, rest: seq<byte>)
    ensures PutLittle(v, size, rest) == PutLittle(v, size, []) + rest
  {
    if size > 0 {
      LittleInFront(v / 256, size - 1, rest);
    }
  }

  lemma AssetInFront(a: Asset, rest: seq<byte>)
    ensures PutAsset(a, rest) == PutAsset(a, []) + rest
  {
    hide PutLittle;
    LittleInFront(a.amount, 8, PutVarint(a.instanceId, rest));
    LittleInFront(a.amount, 8, PutVarint(a.instanceId, []));
    assert PutVarint(a.instanceId, rest) == PutVarint(a.instanceId, []) + rest;
  }

  lemma FeeOfTransferBytes()
    ensures PutAsset(Asset(10420, 0), []) == [0xb4, 0x28, 0, 0, 0, 0, 0, 0, 0]
  {
  }

  lemma PaymentBytes()
    ensures PutAsset(Asset(4000000, 0), []) == [0x00, 0x09, 0x3d, 0, 0, 0, 0, 0, 0]
  {
  }

  lemma FeeOfOrderBytes()
    ensures PutAsset(Asset(25000, 0), []) == [0xa8, 0x61, 0, 0, 0, 0, 0, 0, 0]
  {
  }

  lemma SoldBytes()
    ensures PutAsset(Asset(2000000, 0), []) == [0x80, 0x84, 0x1e, 0, 0, 0, 0, 0, 0]
  {
  }

  lemma BoughtBytes()
    ensures PutAsset(Asset(1000, 105), []) == [0xe8, 0x03, 0, 0, 0, 0, 0, 0, 0x69]
  {
  }

  lemma AssetBytes(rest: seq<byte>)
    ensures PutAsset(Asset(10420, 0), rest) == [0xb4, 0x28, 0, 0, 0, 0, 0, 0, 0] + rest
    ensures PutAsset(Asset(4000000, 0), rest) == [0x00, 0x09, 0x3d, 0, 0, 0, 0, 0, 0] + rest
  {
    hide PutAsset;
    FeeOfTransferBytes();
    PaymentBytes();
    AssetInFront(Asset(10420, 0), rest);
    AssetInFront(Asset(4000000, 0), rest);
  }

  lemma OrderAssetBytes(rest: seq<byte>)
    ensures PutAsset(Asset(25000, 0), rest) == [0xa8, 0x61, 0, 0, 0, 0, 0, 0, 0] + rest
    ensures PutAsset(Asset(2000000, 0), rest) == [0x80, 0x84, 0x1e, 0, 0, 0, 0, 0, 0] + rest
    ensures PutAsset(Asset(1000, 105), rest) == [0xe8, 0x03, 0, 0, 0, 0, 0, 0, 0x69] + rest
  {
    hide PutAsset;
    FeeOfOrderBytes();
    SoldBytes();
    BoughtBytes();
    AssetInFront(Asset(25000, 0), rest);
    AssetInFront(Asset(2000000, 0), rest);
    AssetInFront(Asset(1000, 105), rest);
  }

  lemma AccountBytes(rest: seq<byte>)
    ensures PutVarint(1152620, rest) == [0xec, 0xac, 0x46] + rest
    ensures PutVarint(1152699, rest) == [0xbb, 0xad, 0x46] + rest
  {
  }

  lemma NothingBytes(rest: seq<byte>)
    ensures PutExtensions(NOTHING, rest) == [0] + rest
  {
  }

  lemma TransferBytes()
    ensures HostOperationOf(TransferOf(TRANSFER)) == HostEncoding.HostOperation(0,
      [0xb4, 0x28, 0, 0, 0, 0, 0, 0, 0] + [0xec, 0xac, 0x46] + [0xbb, 0xad, 0x46]
      + [0x00, 0x09, 0x3d, 0, 0, 0, 0, 0, 0] + [0] + [0])
  {
    hide PutAsset, PutVarint, PutExtensions;
    var e := PutExtensions(NOTHING, []);
    NothingBytes([]);
    AssetBytes(PutOptionalMemo(None, e));
    AssetBytes(PutVarint(1152620, PutVarint(1152699, PutPayment(TRANSFER, []))));
    AccountBytes(PutPayment(TRANSFER, []));
    AccountBytes(PutVarint(1152699, PutPayment(TRANSFER, [])));
  }

  lemma OrderBytes()
    ensures HostOperationOf(OrderOf(ORDER)) == HostEncoding.HostOperation(1,
      [0xa8, 0x61, 0, 0, 0, 0, 0, 0, 0] + [0xec, 0xac, 0x46] + [0x80, 0x84, 0x1e, 0, 0, 0, 0, 0, 0]
      + [0xe8, 0x03, 0, 0, 0, 0, 0, 0, 0x69] + [0x67, 0xfa, 0x05, 0x5c] + [0] + [0])
  {
    hide PutAsset, PutVarint, PutExtensions, PutLittle;
    NothingBytes([]);
    var terms := PutTerms(ORDER, []);
    TimeBytes(PutBool(false, PutExtensions(NOTHING, [])));
    OrderAssetBytes(terms);
    OrderAssetBytes(PutAsset(ORDER.buyAsset, terms));
    AccountBytes(PutAsset(ORDER.sellAsset, PutAsset(ORDER.buyAsset, terms)));
    OrderAssetBytes(PutVarint(1152620, PutAsset(ORDER.sellAsset, PutAsset(ORDER.buyAsset, terms))));
  }

  lemma TimeBytes(rest: seq<byte>)
    ensures PutLittle(1543895655, 4, rest) == [0x67, 0xfa, 0x05, 0x5c] + rest
  {
    LittleInFront(1543895655, 4, rest);
  }

  // ---- the texts ----

  /** One digit more. */
  lemma DecimalStep(v: nat, d: nat)
    requires v > 0 && d < 10
    ensures Decimal(v * 10 + d) == Decimal(v) + [Digit(d)]
  {
    LastOfDecimal(v * 10 + d);
    assert (v * 10 + d) / 10 == v && (v * 10 + d) % 10 == d;
  }

  lemma OneDigit(d: nat)
    requires 0 < d < 10
    ensures Decimal(d) == [Digit(d)]
  {
    LastOfDecimal(d);
    Numerals.NoDigits(10);
    assert d / 10 == 0 && d % 10 == d;
  }

  lemma AccountShown()
    ensures AccountIdText(1152620) == "1152620" && AccountIdText(1152699) == "1152699"
  {
    hide Decimal;
    AccountNumber();
  }

  lemma AccountNumber()
    ensures Decimal(1152620) == "1152620" && Decimal(1152699) == "1152699"
  {
    hide Decimal;
    OneDigit(1);
    DecimalStep(1, 1);
    DecimalStep(11, 5);
    DecimalStep(115, 2);
    DecimalStep(1152, 6);
    DecimalStep(11526, 2);
    DecimalStep(115262, 0);
    DecimalStep(11526, 9);
    DecimalStep(115269, 9);
  }

  /** An amount in units of ten to the minus `precision`, when whole part and rest are known. */
  lemma AmountIs(amount: nat, precision: nat, p: nat, whole: nat, rest: nat)
    requires p == Pow(10, precision) && amount == whole * p + rest && rest < p
    ensures AmountText(amount, precision) == Decimal(whole) + Fraction(rest, precision)
  {
    hide Decimal, Fraction, Pow;
    DivModUnique(amount, p, whole, rest);
  }

  lemma Tens()
    ensures Pow(10, 4) == 10000 && Pow(10, 5) == 100000
  {
    Hundred();
    PowStep(10, 5);
  }

  lemma Known()
    ensures AssetDescription(0) == Description(5, "BTS") && AssetDescription(105) == Description(4, "bitSILVER")
  {
  }

  lemma NoFraction(precision: nat)
    ensures Fraction(0, precision) == ""
  {
  }

  lemma TransferAmounts()
    ensures AssetText(Asset(4000000, 0)) == "40 BTS"
    ensures AssetText(Asset(10420, 0)) == "0.1042 BTS"
  {
    hide AmountText, AssetDescription, Decimal, Fraction, Pow;
    Tens();
    Known();
    AmountIs(4000000, 5, 100000, 40, 0);
    AmountIs(10420, 5, 100000, 0, 10420);
    NoFraction(5);
    TransferDigits();
  }

  /** A fraction, when its digits and those that matter are known. */
  lemma FractionIs(rest: nat, precision: nat, digits: string, kept: nat)
    requires rest > 0 && Decimal(rest) == digits && |digits| <= precision && Strip(rest) == kept
    ensures Fraction(rest, precision) == "." + (NoughtDigits(precision - |digits|) + Decimal(kept))
  {
    hide Decimal, Strip;
    DecimalBack(kept);
  }

  lemma Stripping()
    ensures Strip(10420) == 1042 && Strip(1000) == 1 && Strip(25000) == 25 && Strip(2500) == 25
  {
  }

  lemma Noughts()
    ensures NoughtDigits(0) == "" && NoughtDigits(1) == "0"
  {
  }

  lemma TransferDigits()
    ensures Decimal(40) == "40" && Decimal(0) == "0" && Fraction(10420, 5) == ".1042"
  {
    hide Decimal, Fraction, Strip, NoughtDigits;
    ZeroDigit();
    OneDigit(4);
    OneDigit(1);
    DecimalStep(4, 0);
    DecimalStep(1, 0);
    DecimalStep(10, 4);
    DecimalStep(104, 2);
    DecimalStep(1042, 0);
    Stripping();
    Noughts();
    FractionIs(10420, 5, "10420", 1042);
  }

  lemma ZeroDigit()
    ensures Decimal(0) == "0"
  {
  }

  lemma OrderAmounts()
    ensures AssetText(Asset(2000000, 0)) == "20 BTS"
    ensures AssetText(Asset(1000, 105)) == "0.1 bitSILVER"
    ensures AssetText(Asset(25000, 0)) == "0.25 BTS"
  {
    hide AmountText, AssetDescription, Decimal, Fraction, Pow;
    Tens();
    Known();
    AmountIs(2000000, 5, 100000, 20, 0);
    AmountIs(1000, 4, 10000, 0, 1000);
    AmountIs(25000, 5, 100000, 0, 25000);
    NoFraction(5);
    OrderDigits();
  }

  lemma OrderDigits()
    ensures Decimal(20) == "20" && Decimal(0) == "0" && Fraction(1000, 4) == ".1" && Fraction(25000, 5) == ".25"
  {
    hide Decimal, Fraction, Strip, NoughtDigits;
    ZeroDigit();
    OneDigit(1);
    OneDigit(2);
    DecimalStep(2, 0);
    DecimalStep(1, 0);
    DecimalStep(10, 0);
    DecimalStep(100, 0);
    DecimalStep(2, 5);
    DecimalStep(25, 0);
    DecimalStep(250, 0);
    DecimalStep(2500, 0);
    Stripping();
    Noughts();
    FractionIs(1000, 4, "1000", 1);
    FractionIs(25000, 5, "25000", 25);
  }

  lemma OtherAmounts()
    ensures AssetText(Asset(2500, 0)) == "0.025 BTS"
    ensures AssetText(Asset(303100000, 0)) == "3031 BTS"
  {
    hide AmountText, AssetDescription, Decimal, Fraction, Pow;
    Tens();
    Known();
    AmountIs(2500, 5, 100000, 0, 2500);
    AmountIs(303100000, 5, 100000, 3031, 0);
    NoFraction(5);
    OtherDigits();
  }

  lemma OtherDigits()
    ensures Decimal(3031) == "3031" && Decimal(0) == "0" && Fraction(2500, 5) == ".025"
  {
    hide Decimal, Fraction, Strip, NoughtDigits;
    ZeroDigit();
    OneDigit(3);
    OneDigit(2);
    DecimalStep(3, 0);
    DecimalStep(30, 3);
    DecimalStep(303, 1);
    DecimalStep(2, 5);
    DecimalStep(25, 0);
    DecimalStep(250, 0);
    Stripping();
    Noughts();
    FractionIs(2500, 5, "2500", 25);
  }

  /** The fourth of December 2018, 03:54:15. */
  lemma TimeShown()
    ensures TimeText(DateOf(1543895655)) == "2018-12-04 T 03:54:15 UTC"
  {
    var tm := Tm(118, 11, 3, 337, 3, 54, 15);
    ThatSecond(tm);
    hide IsQuadDateOf, TimeText;
    QuadDateUnique(DateOf(1543895655), tm, 1543895655);
    ThatText(tm);
  }

  lemma ThatSecond(tm: Tm)
    requires tm == Tm(118, 11, 3, 337, 3, 54, 15)
    ensures IsQuadDateOf(tm, 1543895655)
  {
  }

  lemma ThatText(tm: Tm)
    requires tm == Tm(118, 11, 3, 337, 3, 54, 15)
    ensures TimeText(tm) == "2018-12-04 T 03:54:15 UTC"
  {
    hide Padded;
    TwoWide();
    DayParts();
    ClockParts();
  }

  lemma DayParts()
    ensures "2018" + "-" + "12" + "-" + "04" == "2018-12-04" && "2018-12-04" + " T " + "03" == "2018-12-04 T 03"
  {
  }

  lemma ClockParts()
    ensures "2018-12-04 T 03" + ":" + "54" + ":" + "15" == "2018-12-04 T 03:54:15"
    ensures "2018-12-04 T 03:54:15" + " UTC" == "2018-12-04 T 03:54:15 UTC"
  {
  }

  lemma TwoWide()
    ensures Padded(2018, 4) == "2018" && Padded(12, 2) == "12" && Padded(4, 2) == "04" && Padded(3, 2) == "03"
    ensures Padded(54, 2) == "54" && Padded(15, 2) == "15"
  {
    hide Decimal, NoughtDigits;
    DateNumbers();
    Noughts();
  }

  lemma DateNumbers()
    ensures Decimal(2018) == "2018" && Decimal(12) == "12" && Decimal(4) == "4" && Decimal(3) == "3"
    ensures Decimal(54) == "54" && Decimal(15) == "15"
  {
    hide Decimal;
    OneDigit(2);
    DecimalStep(2, 0);
    DecimalStep(20, 1);
    DecimalStep(201, 8);
    OneDigit(1);
    DecimalStep(1, 2);
    DecimalStep(1, 5);
    OneDigit(4);
    OneDigit(3);
    OneDigit(5);
    DecimalStep(5, 4);
  }

  // ---- the screens ----

  /** Whatever comes before and behind it, a transfer is shown on these screens. */
  lemma TransferShown(ripemd: KeyText.Ripemd160)
    ensures Listing(TransferOf(TRANSFER), ripemd) == [
      [Screen("Amount", "40 BTS")], [Screen("From", "1152620")], [Screen("To", "1152699")],
      [Screen("Fee", "0.1042 BTS")]]
    ensures TitleScreen([TransferOf(TRANSFER)], 0) == Screen("Operation 1 of 1", "Transfer")
  {
    hide AssetText, AccountIdText;
    TransferAmounts();
    AccountShown();
    FirstTitle();
  }

  lemma FirstTitle()
    ensures TitleScreen([TransferOf(TRANSFER)], 0) == Screen("Operation 1 of 1", "Transfer")
  {
    hide Decimal, PutTransfer;
    OneDigit(1);
  }

  /** The whole review of the transaction that holds this transfer. */
  lemma TransferReviewed(txId: seq<byte>, ripemd: KeyText.Ripemd160)
    ensures AllScreens([TransferOf(TRANSFER)], txId, ripemd) == [
      Screen("Confirm", "Transaction"), Screen("Tx ID", TxIdText(txId)), Screen("Operation 1 of 1", "Transfer"),
      Screen("Amount", "40 BTS"), Screen("From", "1152620"), Screen("To", "1152699"), Screen("Fee", "0.1042 BTS")]
  {
    hide Listing, TitleScreen, TxIdText;
    TransferShown(ripemd);
    FourArguments(Listing(TransferOf(TRANSFER), ripemd));
    OneOperation([TransferOf(TRANSFER)], ripemd);
  }

  lemma FourArguments(l: seq<seq<Screen>>)
    requires |l| == 4 && |l[0]| == |l[1]| == |l[2]| == |l[3]| == 1
    ensures FlatArguments(l, 4) == [l[0][0], l[1][0], l[2][0], l[3][0]]
  {
    assert FlatArguments(l, 0) == [] && FlatArguments(l, 1) == [l[0][0]];
    assert FlatArguments(l, 2) == [l[0][0], l[1][0]] && FlatArguments(l, 3) == [l[0][0], l[1][0], l[2][0]];
  }

  lemma OneOperation(ops: seq<OperationValue>, ripemd: KeyText.Ripemd160)
    requires |ops| == 1
    ensures var l := Listing(ops[0], ripemd);
      FlatOperations(ops, 1, ripemd) == [TitleScreen(ops, 0)] + FlatArguments(l, |l|)
  {
    hide Listing, TitleScreen, FlatArguments;
    assert FlatOperations(ops, 0, ripemd) == [];
  }

  /** It is one of those that are received and shown, whatever its other fields hold, up to 2^24 bytes each. */
  lemma TransferAcceptable(tx: HostEncoding.Transaction)
    requires tx.operations == [HostOperationOf(TransferOf(TRANSFER))] && tx.extension == None
    requires |tx.chainId| < 0x100_0000 && |tx.refBlockNum| < 0x100_0000
    requires |tx.refBlockPrefix| < 0x100_0000 && |tx.expiration| < 0x100_0000
    ensures HostEncoding.Acceptable(tx) && OperationFits(TransferOf(TRANSFER))
  {
    hide HostOperationOf, StreamMeaning.Readable, StreamMeaning.Count, HostEncoding.SupportedBytes;
    TransferBytes();
    RoundTrip.OneByteCount(0);
    assert HostEncoding.ExtensionValue(tx) == [0];
    OnePayload(tx.operations);
  }

  lemma OnePayload(ops: seq<HostEncoding.HostOperation>)
    requires |ops| == 1
    ensures HostEncoding.SupportedBytes(ops) <= |ops[0].payload|
  {
    assert ops[..0] == [];
  }

  lemma OrderShown(ripemd: KeyText.Ripemd160)
    ensures Listing(OrderOf(ORDER), ripemd) == [
      [Screen("Seller", "1152620")], [Screen("Amount to Sell", "20 BTS")], [Screen("Amount to Buy", "0.1 bitSILVER")],
      [Screen("Expires", "2018-12-04 T 03:54:15 UTC")], [Screen("Fill or Kill", "False")], [Screen("Fee", "0.25 BTS")]]
  {
    hide AssetText, AccountIdText, TimeText, DateOf;
    OrderAmounts();
    AccountShown();
    TimeShown();
  }

  lemma CancelShown(ripemd: KeyText.Ripemd160)
    ensures Listing(CancelOf(CANCEL), ripemd) == [
      [Screen("Account", "1152620")], [Screen("Order Id", "51840")], [Screen("Fee", "0.025 BTS")]]
  {
    hide AssetText, AccountIdText, Decimal;
    OtherAmounts();
    AccountShown();
    CancelledOrder();
  }

  lemma CancelledOrder()
    ensures Decimal(51840) == "51840"
  {
    hide Decimal;
    OneDigit(5);
    DecimalStep(5, 1);
    DecimalStep(51, 8);
    DecimalStep(518, 4);
    DecimalStep(5184, 0);
  }

  lemma UpgradeShown(ripemd: KeyText.Ripemd160)
    ensures Listing(UpgradeOf(UPGRADE), ripemd) == [
      [Screen("Account to Upgrade", "1152620")], [Screen("Upgrade Path", "Lifetime Membership")],
      [Screen("Fee", "3031 BTS")]]
  {
    hide AssetText, AccountIdText;
    OtherAmounts();
    AccountShown();
  }

  /** The lists of the account update, except for its keys. */
  lemma ListsShown()
    ensures Line(Rendered(AccountTexts([AccountAuth(1152699, 1)]))) == "[1.2.1152699, w: 1] "
    ensures Line(Rendered(AccountTexts([]))) == "(None)"
    ensures Line(Rendered(VoteTexts([2 + 167 * 256, 2 + 301 * 256]))) == "2:167,  2:301 "
  {
    hide AccountAuthText, VoteText;
    ListItems();
    var accounts, votes := AccountTexts([AccountAuth(1152699, 1)]), VoteTexts([2 + 167 * 256, 2 + 301 * 256]);
    assert accounts == ["[1.2.1152699, w: 1]"];
    assert Listed(accounts, 0) == "" && Listed(accounts, 1) == "[1.2.1152699, w: 1] ";
    assert votes == ["2:167", "2:301"];
    assert Listed(votes, 0) == "" && Listed(votes, 1) == "2:167,  ";
  }

  lemma ListItems()
    ensures AccountAuthText(AccountAuth(1152699, 1)) == "[1.2.1152699, w: 1]"
    ensures VoteText(2 + 167 * 256) == "2:167" && VoteText(2 + 301 * 256) == "2:301"
  {
    hide Decimal;
    ListNumbers();
    assert (2 + 167 * 256) % 256 == 2 && (2 + 167 * 256) / 256 == 167;
    assert (2 + 301 * 256) % 256 == 2 && (2 + 301 * 256) / 256 == 301;
  }

  lemma ListNumbers()
    ensures Decimal(1152699) == "1152699" && Decimal(1) == "1" && Decimal(2) == "2"
    ensures Decimal(167) == "167" && Decimal(301) == "301"
  {
    hide Decimal;
    AccountNumber();
    OneDigit(1);
    OneDigit(2);
    OneDigit(3);
    DecimalStep(1, 6);
    DecimalStep(16, 7);
    DecimalStep(3, 0);
    DecimalStep(30, 1);
  }
}
