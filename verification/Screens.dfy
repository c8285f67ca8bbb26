/**
 * The review of a transaction: a timer moves from screen to screen, printing is what moves through the parts of an
 * argument, and the cycle this makes shows everything.
 */
module Screens {
  import opened Numerals
  import opened Outcomes
  import opened CText
  import opened Codec
  import opened ParseOperations
  import opened DecodedLists
  import KeyText
  import StreamSpec

  // ---- operations ----

  function EarlierName(id: nat): string {
    match id
    case 0 => "Transfer"
    case 1 => "Limit Order"
    case 2 => "Cancel Order"
    case 3 => "Adjust Collateral"
    case 4 => "fill_order"
    case 5 => "Register Account"
    case 6 => "Update Acct"
    case 7 => "Whitelist Account"
    case 8 => "Upgrade Acct"
    case 9 => "Transfer Account Ownership"
    case 10 => "Create Asset"
    case 11 => "asset_update"
    case 12 => "asset_update_bitasset"
    case 13 => "asset_update_feed_producers"
    case 14 => "asset_issue"
    case 15 => "asset_reserve"
    case 16 => "asset_fund_fee_pool"
    case 17 => "asset_settle"
    case 18 => "asset_global_settle"
    case 19 => "asset_publish_feed"
    case 20 => "witness_create"
    case 21 => "witness_update"
    case 22 => "proposal_create"
    case 23 => "proposal_update"
    case 24 => "proposal_delete"
    case _ => "** Unknown Operation **"
  }

  function LaterName(id: nat): string {
    match id
    case 25 => "withdraw_permission_create"
    case 26 => "withdraw_permission_update"
    case 27 => "withdraw_permission_claim"
    case 28 => "withdraw_permission_delete"
    case 29 => "committee_member_create"
    case 30 => "committee_member_update"
    case 31 => "committee_member_update_global_parameters"
    case 32 => "vesting_balance_create"
    case 33 => "vesting_balance_withdraw"
    case 34 => "worker_create"
    case 35 => "custom"
    case 36 => "assert"
    case 37 => "balance_claim"
    case 38 => "override_transfer"
    case 39 => "transfer_to_blind"
    case 40 => "blind_transfer"
    case 41 => "transfer_from_blind"
    case 42 => "asset_settle_cancel"
    case 43 => "asset_claim_fees"
    case 44 => "fba_distribute"
    case 45 => "bid_collateral"
    case 46 => "execute_bid"
    case 47 => "asset_claim_pool"
    case 48 => "asset_update_issuer"
    case _ => "** Unknown Operation **"
  }

  function OperationName(id: nat): string {
    if id < 25 then EarlierName(id) else LaterName(id)
  }

  datatype Parser = NoParser | TransferParser | LimitOrderCreateParser | LimitOrderCancelParser | AccountUpdateParser
                  | AccountUpgradeParser | UnsupportedParser | UnknownParser

  const OP_NUM_KNOWN_OPS: nat := 49

  function ParserOf(id: nat): Parser {
    match id
    case 0 => TransferParser
    case 1 => LimitOrderCreateParser
    case 2 => LimitOrderCancelParser
    case 6 => AccountUpdateParser
    case 8 => AccountUpgradeParser
    case _ => if id < OP_NUM_KNOWN_OPS then UnsupportedParser else UnknownParser
  }

  function ArgumentCount(p: Parser): nat {
    match p
    case NoParser => 0
    case TransferParser => 4
    case LimitOrderCreateParser => 6
    case LimitOrderCancelParser => 3
    case AccountUpdateParser => 5
    case AccountUpgradeParser => 3
    case UnsupportedParser => 2
    case UnknownParser => 2
  }

  predicate Decodes(p: Parser) {
    p !in {NoParser, UnsupportedParser, UnknownParser}
  }

  /** An operation gets a parser that decodes its payload exactly if the stream kept its payload. */
  lemma DecodedIffCached(id: nat)
    ensures Decodes(ParserOf(id)) <==> StreamSpec.Supported(id)
  {
  }

  datatype Operation = ATransfer(transfer: Transfer) | AnOrder(order: LimitOrderCreate)
                     | ACancel(cancel: LimitOrderCancel) | AnUpdate(update: AccountUpdate)
                     | AnUpgrade(upgrade: AccountUpgrade) | Unsupported | Unknown

  /** What a parser makes of the payload in its window. */
  function OperationIn(p: Parser, w: seq<byte>, end: nat): Option<Operation> {
    match p
    case NoParser => None
    case TransferParser => (match TransferIn(w, end) case None => None case Some((t, _)) => Some(ATransfer(t)))
    case LimitOrderCreateParser =>
      (match LimitOrderCreateIn(w, end) case None => None case Some((c, _)) => Some(AnOrder(c)))
    case LimitOrderCancelParser =>
      (match LimitOrderCancelIn(w, end) case None => None case Some((c, _)) => Some(ACancel(c)))
    case AccountUpdateParser => (match AccountUpdateIn(w, end) case None => None case Some((u, _)) => Some(AnUpdate(u)))
    case AccountUpgradeParser =>
      (match AccountUpgradeIn(w, end) case None => None case Some((u, _)) => Some(AnUpgrade(u)))
    case UnsupportedParser => Some(Unsupported)
    case UnknownParser => Some(Unknown)
  }

  ghost function OperationScreen(mem: Memory, op: Operation, arg: nat, remain: nat, ripemd: KeyText.Ripemd160):
    Option<Screen>
  {
    match op
    case ATransfer(t) => TransferScreen(t, arg)
    case AnOrder(c) => LimitOrderCreateScreen(c, arg)
    case ACancel(c) => LimitOrderCancelScreen(c, arg)
    case AnUpdate(u) => AccountUpdateScreen(mem, u, arg, remain, ripemd)
    case AnUpgrade(u) => AccountUpgradeScreen(u, arg)
    case Unsupported => UnsupportedScreen(arg)
    case Unknown => UnknownScreen(arg)
  }

  /** The lists of an operation can be walked without leaving its payload. */
  predicate Bounded(op: Operation) {
    match op
    case AnUpdate(u) => ListsUnwrapped(u)
    case _ => true
  }

  function Parts(op: Operation, arg: nat): nat {
    match op
    case AnUpdate(u) => Subscreens(u, arg)
    case _ => 0
  }

  // ---- what is under review ----

  /** The part of txContent that the display phase reads. The memory starts with the cached payloads. */
  datatype Content = Content(ids: seq<nat>, offsets: seq<nat>, mem: Memory, txIdHash: seq<byte>,
      ripemd: KeyText.Ripemd160)

  function From(c: Content, i: nat): nat {
    if 0 < i <= |c.offsets| then c.offsets[i - 1] else 0
  }

  function Size(c: Content, i: nat): nat {
    if i < |c.offsets| && From(c, i) <= c.offsets[i] then c.offsets[i] - From(c, i) else 0
  }

  function Payload(c: Content, i: nat): seq<byte> {
    Window(c.mem, From(c, i), Size(c, i))
  }

  function Parsed(c: Content, p: Parser, i: nat): Option<Operation> {
    OperationIn(p, Payload(c, i), From(c, i) + Size(c, i))
  }

  function IdOf(c: Content, i: nat): nat {
    if i < |c.ids| then c.ids[i] else 0
  }

  function OpOf(c: Content, i: nat): Operation {
    match Parsed(c, ParserOf(IdOf(c, i)), i)
    case Some(op) => op
    case None => Unknown
  }

  /**
   * One operation at least, and each of them decoded by the parser its id calls for, with all its lists in the
   * payload.
   */
  ghost predicate WellFormed(c: Content) {
    && 1 <= |c.ids| == |c.offsets| && |c.txIdHash| == 32
    && forall i :: 0 <= i < |c.ids| ==> From(c, i) <= c.offsets[i] < UINT32 && Showable(c, i)
  }

  predicate Showable(c: Content, i: nat) {
    Parsed(c, ParserOf(IdOf(c, i)), i).Some? && Bounded(OpOf(c, i))
  }

  // ---- the machine ----

  /** ux_step, ux_step_count, the fields of txContent that the display changes, and the two lines of text. */
  datatype View = View(step: nat, stepCount: nat, current: nat, argumentCount: nat, remain: nat, parser: Parser,
                       title: string, text: string)

  function HexDigit(d: nat): char {
    if d < 10 then '0' + d as char else if d < 16 then 'a' + (d - 10) as char else '?'
  }

  function Hex(b: seq<byte>): string {
    if b == [] then "" else [HexDigit(b[0] / 16), HexDigit(b[0] % 16)] + Hex(b[1..])
  }

  /** The first three bytes and the last three of the twenty that identify a transaction. */
  function TxIdText(hash: seq<byte>): string {
    if |hash| < 20 then "" else Hex(hash[..3]) + "..." + Hex(hash[17..20])
  }

  /** What a lower-case hexadecimal digit stands for; 16 if it is none. */
  function HexValue(c: char): nat {
    if '0' <= c <= '9' then (c - '0') as nat
    else if 'a' <= c <= 'f' then (c - 'a') as nat + 10
    else 16
  }

  /** The byte that is written at this place. */
  function ByteAt(s: string, k: nat): nat {
    if k + 1 < |s| then HexValue(s[k]) * 16 + HexValue(s[k + 1]) else 256
  }

  /** Every byte can be read back from its two digits. */
  lemma {:induction false} HexBack(b: seq<byte>, k: nat)
    requires k < |b|
    ensures |Hex(b)| == 2 * |b| && ByteAt(Hex(b), 2 * k) == b[k]
    ensures HexValue(Hex(b)[2 * k]) < 16 && HexValue(Hex(b)[2 * k + 1]) < 16
  {
    HexLength(b);
    HexLength(b[1..]);
    assert b[0] == b[0] / 16 * 16 + b[0] % 16;
    if k > 0 {
      HexBack(b[1..], k - 1);
      assert forall j :: 0 <= j < 2 * |b| - 2 ==> Hex(b)[j + 2] == Hex(b[1..])[j];
    }
  }

  lemma {:induction false} HexLength(b: seq<byte>)
    ensures |Hex(b)| == 2 * |b|
  {
    if b != [] {
      HexLength(b[1..]);
    }
  }

  /** The text of a transaction id shows the bytes 0 to 2 and 17 to 19 of its hash, with three dots between them. */
  lemma TxIdTold(hash: seq<byte>)
    requires |hash| >= 20
    ensures var s := TxIdText(hash);
      && |s| == 15 && s[6..9] == "..."
      && ByteAt(s, 0) == hash[0] && ByteAt(s, 2) == hash[1] && ByteAt(s, 4) == hash[2]
      && ByteAt(s, 9) == hash[17] && ByteAt(s, 11) == hash[18] && ByteAt(s, 13) == hash[19]
  {
    hide Hex, HexValue;
    var a, b := hash[..3], hash[17..20];
    forall k | 0 <= k < 3 ensures ByteAt(Hex(a), 2 * k) == hash[k] && ByteAt(Hex(b), 2 * k) == hash[17 + k] {
      HexBack(a, k);
      HexBack(b, k);
    }
    HexBack(a, 0);
    HexBack(b, 0);
    ThreeParts(Hex(a), Hex(b));
    assert ByteAt(Hex(a), 2 * 0) == hash[0] && ByteAt(Hex(a), 2 * 1) == hash[1] && ByteAt(Hex(a), 2 * 2) == hash[2];
    assert ByteAt(Hex(b), 2 * 0) == hash[17] && ByteAt(Hex(b), 2 * 1) == hash[18] && ByteAt(Hex(b), 2 * 2) == hash[19];
  }

  lemma ThreeParts(a: string, b: string)
    requires |a| == |b| == 6
    ensures var s := a + "..." + b;
      && |s| == 15 && s[6..9] == "..."
      && forall k :: 0 <= k < 5 ==> ByteAt(s, k) == ByteAt(a, k) && ByteAt(s, 9 + k) == ByteAt(b, k)
  {
    hide HexValue;
  }

  function NameScreen(c: Content, i: nat): Screen {
    Screen(Cut("Operation " + Decimal(i + 1) + " of " + Decimal(|c.ids|), LABEL_SIZE - 1),
        Line(OperationName(IdOf(c, i))))
  }

  /** `updateOperationContent`. */
  function Updated(c: Content, v: View): View {
    var p := ParserOf(IdOf(c, v.current));
    var s := NameScreen(c, v.current);
    v.(argumentCount := ArgumentCount(p), parser := p, title := s.title, text := s.text)
  }

  /**
   * One step further; a sub-screen still to come holds the step back, and behind the last step the next operation
   * follows.
   */
  function Moved(c: Content, v: View): View {
    var next := v.step + 1;
    var step := if next > 2 && v.remain > 1 then v.step else next;
    var remain := if next > 2 && v.remain > 0 then v.remain - 1 else v.remain;
    var over := step >= v.stepCount;
    var current := if over && c.ids != [] then (v.current + 1) % |c.ids| else v.current;
    v.(step := if !over then step else if current != 0 then 2 else 0, remain := remain, current := current)
  }

  /** The timer. */
  function Ticked(c: Content, v: View): View {
    if v.stepCount == 0 || c.ids == [] then v else
      var t := Moved(c, v);
      if t.step == 2 then
        var u := Updated(c, t);
        u.(stepCount := 3 + u.argumentCount)
      else t
  }

  /** `printTxOpArgument`; None if the payload cannot be decoded. */
  ghost function ArgumentPrinted(c: Content, v: View, arg: nat): Option<View> {
    match Parsed(c, v.parser, v.current)
    case None => None
    case Some(op) =>
      var t := v.(remain := Countdown(Parts(op, arg), v.remain));
      match OperationScreen(c.mem, op, arg, v.remain, c.ripemd)
      case None => Some(t)
      case Some(s) => Some(t.(title := s.title, text := s.text))
  }

  predicate Displays(v: View, userid: nat) {
    (v.step > 3 && userid == 4) || v.step + 1 == userid
  }

  /** `ui_approval_prepro` for one element. */
  ghost function Prepared(c: Content, v: View, userid: nat): Option<View> {
    if !Displays(v, userid) then Some(v)
    else if userid == 2 then Some(v.(text := TxIdText(c.txIdHash)))
    else if userid == 4 && v.step >= 3 then ArgumentPrinted(c, v, v.step - 3)
    else Some(v)
  }

  /** The elements of the approval screen, two lines for each kind of screen. */
  const ELEMENTS: seq<nat> := [1, 1, 2, 2, 3, 3, 4, 4]

  /** All elements from the k-th on, one after the other. */
  ghost function Redisplayed(c: Content, v: View, k: nat): Option<View>
    decreases |ELEMENTS| - k
  {
    if k >= |ELEMENTS| then Some(v) else
      var t :- Prepared(c, v, ELEMENTS[k]);
      Redisplayed(c, t, k + 1)
  }

  /** What is to be read on the display. */
  function Seen(v: View): Screen {
    if v.step == 0 then Screen("Confirm", "Transaction")
    else if v.step == 1 then Screen("Tx ID", v.text)
    else Screen(v.title, v.text)
  }

  // ---- redisplay ----

  /**
   * Printing an argument twice, as the two lines of its screen make happen, does what printing it once does: in every
   * state, the lines and the countdown are left alone the second time.
   */
  lemma PrintedTwice(c: Content, v: View, arg: nat)
    ensures var once := ArgumentPrinted(c, v, arg); once.Some? ==> ArgumentPrinted(c, once.value, arg) == once
  {
    hide OperationIn, Payload, TransferScreen, LimitOrderCreateScreen, LimitOrderCancelScreen, AccountUpgradeScreen,
         UnsupportedScreen, UnknownScreen;
    if Parsed(c, v.parser, v.current).Some? {
      var op := Parsed(c, v.parser, v.current).value;
      if v.remain == 0 && Parts(op, arg) > 0 {
        HeaderDone(c.mem, op, arg, c.ripemd);
      }
    }
  }

  /** Right after a header the countdown stands where no part is printed. */
  lemma HeaderDone(mem: Memory, op: Operation, arg: nat, ripemd: KeyText.Ripemd160)
    requires Parts(op, arg) > 0
    ensures OperationScreen(mem, op, arg, Parts(op, arg) + 1, ripemd).None?
  {
  }

  /** Which elements are shown depends on the step alone, so a redisplay is one visit or two to the same code. */
  lemma RedisplayIs(c: Content, v: View)
    ensures Redisplayed(c, v, 0) ==
      if v.step == 1 then Some(v.(text := TxIdText(c.txIdHash)))
      else if v.step >= 3 then ArgumentPrinted(c, v, v.step - 3)
      else Some(v)
  {
    hide ArgumentPrinted, TxIdText;
    if v.step >= 3 {
      PrintedTwice(c, v, v.step - 3);
      SameStep(c, v);
    }
    Elements(c, v);
  }

  lemma SameStep(c: Content, v: View)
    requires v.step >= 3
    ensures ArgumentPrinted(c, v, v.step - 3).Some? ==> ArgumentPrinted(c, v, v.step - 3).value.step == v.step
  {
    hide OperationScreen, Parsed;
  }

  lemma Elements(c: Content, v: View)
    ensures Redisplayed(c, v, 0) ==
      (var a :- Prepared(c, v, 1); var b :- Prepared(c, a, 1); var d :- Prepared(c, b, 2); var e :- Prepared(c, d, 2);
       var f :- Prepared(c, e, 3); var g :- Prepared(c, f, 3); var h :- Prepared(c, g, 4); Prepared(c, h, 4))
  {
    hide Prepared;
    forall x: View ensures Redisplayed(c, x, 8) == Some(x) {}
    forall x: View ensures Redisplayed(c, x, 7) == Prepared(c, x, 4) {}
  }
}
