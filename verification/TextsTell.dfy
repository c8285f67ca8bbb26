/** Single texts of the display: each tells the number, account, time, key or name that it was made from. */
module TextsTell {
  import opened Numerals
  import opened Outcomes
  import opened Codec
  import opened CText
  import opened Times
  import opened ParseOperations
  import opened Screens
  import KeyText

  // ---- single texts ----

  lemma DecimalTells(v: nat, w: nat)
    requires Decimal(v) == Decimal(w)
    ensures v == w
  {
    hide Decimal;
    DecimalBack(v);
    DecimalBack(w);
  }

  /** The account that a text names: one of the six with a name of their own, or the one with this number. */
  function ReadAccountId(s: string): nat {
    if s == "committee-account" then 0
    else if s == "witness-account" then 1
    else if s == "relaxed-committee-account" then 2
    else if s == "null-account" then 3
    else if s == "temp-account" then 4
    else if s == "proxy-to-self" then 5
    else ValueOf(s)
  }

  lemma AccountBack(id: nat)
    ensures ReadAccountId(AccountIdText(id)) == id
  {
    hide Decimal, ValueOf;
    if id >= 6 {
      DecimalBack(id);
      NoName(Decimal(id));
    } else {
      NameLengths(id);
    }
  }

  /** No reserved name is a numeral. */
  lemma NoName(s: string)
    requires AllDigits(s)
    ensures ReadAccountId(s) == ValueOf(s)
  {
    hide ValueOf, AllDigits;
    NotDigits(s, "committee-account");
    NotDigits(s, "witness-account");
    NotDigits(s, "relaxed-committee-account");
    NotDigits(s, "null-account");
    NotDigits(s, "temp-account");
    NotDigits(s, "proxy-to-self");
  }

  lemma NotDigits(s: string, name: string)
    requires AllDigits(s) && name != "" && !('0' <= name[0] <= '9')
    ensures s != name
  {
    assert name[0] in name;
  }

  lemma NameLengths(id: nat)
    requires id < 6
    ensures |AccountIdText(id)| == [17, 15, 25, 12, 12, 13][id]
    ensures id == 3 || id == 4 ==> AccountIdText(id)[0] == if id == 3 then 'n' else 't'
  {
  }

  lemma AccountTells(v: nat, w: nat)
    requires AccountIdText(v) == AccountIdText(w)
    ensures v == w
  {
    hide AccountIdText, ReadAccountId;
    AccountBack(v);
    AccountBack(w);
  }

  /** What the text of a truth value says. */
  function ReadBool(s: string): Option<bool> {
    if s == "True" then Some(true) else if s == "False" then Some(false) else None
  }

  lemma BoolTold(b: bool)
    ensures ReadBool(BoolText(b)) == Some(b)
  {
    assert |BoolText(true)| == 4 && |BoolText(false)| == 5;
  }

  /** The value line holds the first 127 characters of a text, and so all of a shorter one. */
  lemma LineHolds(s: string)
    ensures |Line(s)| == (if |s| < 127 then |s| else 127) && Line(s) == s[..|Line(s)|]
  {
  }

  lemma TimeTells(t: nat, u: nat)
    requires t < UINT32 && u < UINT32 && TimeText(DateOf(t)) == TimeText(DateOf(u))
    ensures t == u
  {
    hide TimeText, ReadTime, IsQuadDateOf;
    var _ := QuadDateExists(t);
    var _ := QuadDateExists(u);
    TimeTextBack(DateOf(t), t);
    TimeTextBack(DateOf(u), u);
  }

  lemma KeyTells(a: KeyText.Key, b: KeyText.Key, ripemd: KeyText.Ripemd160)
    requires KeyText.Text(a, ripemd) == KeyText.Text(b, ripemd)
    ensures a == b
  {
    hide KeyText.Text;
    KeyText.TextDecodes(a, ripemd);
    KeyText.TextDecodes(b, ripemd);
  }

  /** Numbers of 32 bits are not cut on the value line. */
  lemma ShortNumber(v: nat)
    requires v < UINT32
    ensures |Decimal(v)| <= 10
  {
    hide Decimal, Pow;
    Billion();
    DecimalLength(v, 10);
  }

  lemma Billion()
    ensures UINT32 < Pow(10, 10)
  {
    PowAdd(10, 4, 4);
    PowAdd(10, 8, 2);
    Hundred();
    assert Pow(10, 4) == 10000 && Pow(10, 8) == 10000 * 10000;
  }

  lemma NumberLineTells(before: string, v: nat, w: nat)
    requires |before| <= 20 && v < UINT32 && w < UINT32
    requires Line(before + Decimal(v)) == Line(before + Decimal(w))
    ensures v == w
  {
    hide Decimal;
    ShortNumber(v);
    ShortNumber(w);
    var s, t := before + Decimal(v), before + Decimal(w);
    assert Decimal(v) == s[|before|..] && Decimal(w) == t[|before|..];
    DecimalTells(v, w);
  }

  // ---- the names of operations ----

  datatype Named = Named(name: string, id: nat)

  /** The length of a name, its fourth character from the end, and its first tell it from all others. */
  function NamedBy(n: nat, c: char, a: char): Named {
    match n
    case 6 =>
      if a == 'c' then Named("custom", 35) else Named("assert", 36)
    case 8 => Named("Transfer", 0)
    case 10 => Named("fill_order", 4)
    case 11 =>
      if c == 'r' then Named("Limit Order", 1) else
      if c == 'A' then Named("Update Acct", 6) else
      if c == 's' then Named("asset_issue", 14) else Named("execute_bid", 46)
    case 12 =>
      if c == 'r' then Named("Cancel Order", 2) else
      if c == 'A' then Named("Upgrade Acct", 8) else
      if c == 's' then Named("Create Asset", 10) else
      if c == 'd' then Named("asset_update", 11) else Named("asset_settle", 17)
    case 13 =>
      if a == 'a' then Named("asset_reserve", 15) else
      if a == 'w' then Named("worker_create", 34) else Named("balance_claim", 37)
    case 14 =>
      if a == 'f' then Named("fba_distribute", 44) else
      if a == 'w' then (if c == 'e' then Named("witness_create", 20) else Named("witness_update", 21)) else
      if c == 's' then Named("blind_transfer", 40) else Named("bid_collateral", 45)
    case 15 =>
      if c == 'e' then Named("proposal_create", 22) else
      if c == 'd' then Named("proposal_update", 23) else Named("proposal_delete", 24)
    case 16 =>
      if c == 'o' then Named("Register Account", 5) else
      if c == 'f' then Named("asset_claim_fees", 43) else Named("asset_claim_pool", 47)
    case 17 =>
      if c == 'e' then Named("Adjust Collateral", 3) else
      if c == 'o' then Named("Whitelist Account", 7) else
      if c == 's' then Named("override_transfer", 38) else Named("transfer_to_blind", 39)
    case 18 => Named("asset_publish_feed", 19)
    case 19 =>
      if c == 'p' then Named("asset_fund_fee_pool", 16) else
      if c == 't' then Named("asset_global_settle", 18) else
      if c == 'l' then Named("transfer_from_blind", 41) else
      if c == 'n' then Named("asset_settle_cancel", 42) else Named("asset_update_issuer", 48)
    case 21 => Named("asset_update_bitasset", 12)
    case 22 => Named("vesting_balance_create", 32)
    case 23 =>
      if c == 'e' then Named("committee_member_create", 29) else
      if c == 'd' then Named("committee_member_update", 30) else Named("** Unknown Operation **", 49)
    case 24 => Named("vesting_balance_withdraw", 33)
    case 25 => Named("withdraw_permission_claim", 27)
    case 26 =>
      if c == 's' then Named("Transfer Account Ownership", 9) else
      if c == 'e' then Named("withdraw_permission_create", 25) else
      if c == 'd' then Named("withdraw_permission_update", 26) else Named("withdraw_permission_delete", 28)
    case 27 => Named("asset_update_feed_producers", 13)
    case 41 => Named("committee_member_update_global_parameters", 31)
    case _ => Named("", 50)
  }

  /** The operation with this name: 49 for the name of all unknown ones, and 50 if no operation is called that. */
  function IdOfName(s: string): nat {
    if |s| < 4 then 50 else
      var named := NamedBy(|s|, s[|s| - 4], s[0]);
      if named.name == s then named.id else 50
  }

  /** Operations that are not known share one name. */
  function ShownId(id: nat): nat {
    if id < 49 then id else 49
  }

  lemma FirstNamesBack(id: nat)
    requires id < 4
    ensures IdOfName(EarlierName(id)) == id && |EarlierName(id)| <= 41
  {
  }

  lemma SecondNamesBack(id: nat)
    requires 4 <= id < 8
    ensures IdOfName(EarlierName(id)) == id && |EarlierName(id)| <= 41
  {
  }

  lemma ThirdNamesBack(id: nat)
    requires 8 <= id < 12
    ensures IdOfName(EarlierName(id)) == id && |EarlierName(id)| <= 41
  {
  }

  lemma FourthNamesBack(id: nat)
    requires 12 <= id < 16
    ensures IdOfName(EarlierName(id)) == id && |EarlierName(id)| <= 41
  {
  }

  lemma FifthNamesBack(id: nat)
    requires 16 <= id < 20
    ensures IdOfName(EarlierName(id)) == id && |EarlierName(id)| <= 41
  {
  }

  lemma SixthNamesBack(id: nat)
    requires 20 <= id < 25
    ensures IdOfName(EarlierName(id)) == id && |EarlierName(id)| <= 41
  {
  }

  lemma SeventhNamesBack(id: nat)
    requires 25 <= id < 28
    ensures IdOfName(LaterName(id)) == id && |LaterName(id)| <= 41
  {
  }

  lemma EighthNamesBack(id: nat)
    requires 28 <= id < 31
    ensures IdOfName(LaterName(id)) == id && |LaterName(id)| <= 41
  {
  }

  lemma NinthNamesBack(id: nat)
    requires id == 31
    ensures IdOfName(LaterName(id)) == id && |LaterName(id)| <= 41
  {
  }

  lemma TenthNamesBack(id: nat)
    requires 32 <= id < 37
    ensures IdOfName(LaterName(id)) == id && |LaterName(id)| <= 41
  {
  }

  lemma EleventhNamesBack(id: nat)
    requires 37 <= id < 41
    ensures IdOfName(LaterName(id)) == id && |LaterName(id)| <= 41
  {
  }

  lemma TwelfthNamesBack(id: nat)
    requires 41 <= id < 45
    ensures IdOfName(LaterName(id)) == id && |LaterName(id)| <= 41
  {
  }

  lemma LastNamesBack(id: nat)
    requires 45 <= id < 49
    ensures IdOfName(LaterName(id)) == id && |LaterName(id)| <= 41
  {
  }

  lemma UnknownNameBack(id: nat)
    requires id >= 49
    ensures IdOfName(LaterName(id)) == 49 && |LaterName(id)| <= 41
  {
  }

  /** The name of an operation tells which it is. */
  lemma NameBack(id: nat)
    ensures IdOfName(OperationName(id)) == ShownId(id) && |OperationName(id)| <= 41
  {
    hide IdOfName, EarlierName, LaterName;
    if id < 4 {
      FirstNamesBack(id);
    } else if id < 8 {
      SecondNamesBack(id);
    } else if id < 12 {
      ThirdNamesBack(id);
    } else if id < 16 {
      FourthNamesBack(id);
    } else if id < 20 {
      FifthNamesBack(id);
    } else if id < 25 {
      SixthNamesBack(id);
    } else if id < 28 {
      SeventhNamesBack(id);
    } else if id < 31 {
      EighthNamesBack(id);
    } else if id < 32 {
      NinthNamesBack(id);
    } else if id < 37 {
      TenthNamesBack(id);
    } else if id < 41 {
      EleventhNamesBack(id);
    } else if id < 45 {
      TwelfthNamesBack(id);
    } else if id < 49 {
      LastNamesBack(id);
    } else {
      UnknownNameBack(id);
    }
  }
}
