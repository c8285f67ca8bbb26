/** Amounts of assets as the user reads them: an exact decimal, a blank, and the symbol of the asset. */
module Assets {
  import opened Numerals
  import opened Outcomes
  import opened CText
  import opened Codec

  // ---- symbols ----

  datatype Description = Description(precision: nat, symbol: string)

  function BitAsset(id: nat): Option<Description> {
    match id
    case 0 => Some(Description(5, "BTS"))
    case 102 => Some(Description(4, "bitKRW"))
    case 103 => Some(Description(8, "bitBTC"))
    case 105 => Some(Description(4, "bitSILVER"))
    case 106 => Some(Description(6, "bitGOLD"))
    case 110 => Some(Description(4, "bitRUB"))
    case 113 => Some(Description(4, "bitCNY"))
    case 114 => Some(Description(4, "bitMXN"))
    case 120 => Some(Description(4, "bitEUR"))
    case 121 => Some(Description(4, "bitUSD"))
    case 1325 => Some(Description(5, "bitRUBLE"))
    case _ => None
  }

  function OpenAsset(id: nat): Option<Description> {
    match id
    case 850 => Some(Description(6, "OPEN.ETH"))
    case 858 => Some(Description(8, "OPEN.DASH"))
    case 859 => Some(Description(8, "OPEN.LTC"))
    case 860 => Some(Description(4, "OPEN.DOGE"))
    case 861 => Some(Description(8, "OPEN.BTC"))
    case 973 => Some(Description(3, "OPEN.STEEM"))
    case 1042 => Some(Description(6, "OPEN.USDT"))
    case 1999 => Some(Description(6, "OPEN.EOS"))
    case 3428 => Some(Description(4, "OPEN.XRP"))
    case 4721 => Some(Description(3, "OPEN.IQ"))
    case _ => None
  }

  function BridgeAsset(id: nat): Option<Description> {
    match id
    case 1570 => Some(Description(8, "BRIDGE.BTC"))
    case 3458 => Some(Description(8, "ESCODEX.BTC"))
    case _ => None
  }

  function PlainAsset(id: nat): Option<Description> {
    match id
    case 1578 => Some(Description(4, "BADCOIN"))
    case 1362 => Some(Description(5, "HERO"))
    case 1382 => Some(Description(4, "HERTZ"))
    case 4633 => Some(Description(5, "URTHR"))
    case 4634 => Some(Description(5, "SKULD"))
    case 4635 => Some(Description(5, "VERTHANDI"))
    case _ => None
  }

  function GdexAsset(id: nat): Option<Description> {
    match id
    case 2241 => Some(Description(8, "GDEX.BTC"))
    case 5286 => Some(Description(7, "GDEX.USDT"))
    case 2598 => Some(Description(6, "GDEX.ETH"))
    case 2635 => Some(Description(6, "GDEX.EOS"))
    case 4200 => Some(Description(5, "GDEX.IQ"))
    case _ => None
  }

  function RudexAsset(id: nat): Option<Description> {
    match id
    case 3926 => Some(Description(8, "RUDEX.BTC"))
    case 4106 => Some(Description(4, "RUDEX.EOS"))
    case 3715 => Some(Description(7, "RUDEX.ETH"))
    case 1895 => Some(Description(3, "RUDEX.STEEM"))
    case 4526 => Some(Description(3, "RUDEX.SMOKE"))
    case 5542 => Some(Description(6, "RUDEX.USDT"))
    case _ => None
  }

  function DeexAsset(id: nat): Option<Description> {
    match id
    case 2230 => Some(Description(4, "DEEX"))
    case 3880 => Some(Description(8, "DEEX.BTC"))
    case 4285 => Some(Description(6, "DEEX.EOS"))
    case 3448 => Some(Description(6, "DEEX.ETH"))
    case 3950 => Some(Description(8, "DEEX.LTC"))
    case 4899 => Some(Description(8, "DEEX.STEEM"))
    case _ => None
  }

  function DeexCoin(id: nat): Option<Description> {
    match id
    case 4248 => Some(Description(8, "DEEX.BCH"))
    case 3948 => Some(Description(8, "DEEX.DASH"))
    case 3951 => Some(Description(4, "DEEX.DOGE"))
    case 4898 => Some(Description(8, "DEEX.MONERO"))
    case 4386 => Some(Description(5, "DEEX.NEM"))
    case _ => None
  }

  function XbtsAsset(id: nat): Option<Description> {
    match id
    case 4157 => Some(Description(8, "XBTSX.BTC"))
    case 4099 => Some(Description(6, "XBTSX.STH"))
    case 5589 => Some(Description(6, "XBTSX.USDT"))
    case 5259 => Some(Description(4, "XBTSX.EXR"))
    case 5539 => Some(Description(7, "XBTSX.BCCX"))
    case 4274 => Some(Description(8, "XBTSX.BCH"))
    case _ => None
  }

  function XbtsCoin(id: nat): Option<Description> {
    match id
    case 4275 => Some(Description(8, "XBTSX.BTG"))
    case 4760 => Some(Description(7, "XBTSX.ETH"))
    case 4159 => Some(Description(8, "XBTSX.LTC"))
    case 4631 => Some(Description(8, "XBTSX.WAVES"))
    case 5152 => Some(Description(6, "XBTSX.MDL"))
    case _ => None
  }

  function HonestAsset(id: nat): Option<Description> {
    match id
    case 5641 => Some(Description(4, "HONEST.CNY"))
    case 5649 => Some(Description(4, "HONEST.USD"))
    case 5650 => Some(Description(8, "HONEST.BTC"))
    case 5651 => Some(Description(8, "HONEST.XAU"))
    case 5652 => Some(Description(8, "HONEST.XAG"))
    case 5659 => Some(Description(6, "HONEST.ETH"))
    case 5660 => Some(Description(6, "HONEST.XRP"))
    case 5661 => Some(Description(6, "HONEST.XRP1"))
    case 5662 => Some(Description(6, "HONEST.ETH1"))
    case _ => None
  }

  function KnownAsset(id: nat): Option<Description> {
    if BitAsset(id).Some? then BitAsset(id)
    else if OpenAsset(id).Some? then OpenAsset(id)
    else if BridgeAsset(id).Some? then BridgeAsset(id)
    else if PlainAsset(id).Some? then PlainAsset(id)
    else if GdexAsset(id).Some? then GdexAsset(id)
    else if RudexAsset(id).Some? then RudexAsset(id)
    else if DeexAsset(id).Some? then DeexAsset(id)
    else if DeexCoin(id).Some? then DeexCoin(id)
    else if XbtsAsset(id).Some? then XbtsAsset(id)
    else if XbtsCoin(id).Some? then XbtsCoin(id)
    else HonestAsset(id)
  }

  function AssetDescription(id: nat): Description {
    match KnownAsset(id)
    case Some(d) => d
    case None => Description(0, "[1.3." + Decimal(id) + "]")
  }

  /** A listed asset as the user knows it: its symbol, its number, and how many decimals its amounts have. */
  datatype Row = Row(symbol: string, id: nat, decimals: nat)

  const NO_ROW := Row("", 0, 0)

  // The first character of a listed symbol and its last three tell it from all others.

  function BitRow(x: char, y: char, z: char): Row {
    match (x, y, z)
    case ('K', 'R', 'W') => Row("bitKRW", 102, 4)
    case ('B', 'T', 'C') => Row("bitBTC", 103, 8)
    case ('V', 'E', 'R') => Row("bitSILVER", 105, 4)
    case ('O', 'L', 'D') => Row("bitGOLD", 106, 6)
    case ('R', 'U', 'B') => Row("bitRUB", 110, 4)
    case ('C', 'N', 'Y') => Row("bitCNY", 113, 4)
    case ('M', 'X', 'N') => Row("bitMXN", 114, 4)
    case ('E', 'U', 'R') => Row("bitEUR", 120, 4)
    case ('U', 'S', 'D') => Row("bitUSD", 121, 4)
    case ('B', 'L', 'E') => Row("bitRUBLE", 1325, 5)
    case _ => NO_ROW
  }

  function EarlyRow(x: char, y: char, z: char): Row {
    match (x, y, z)
    case ('B', 'T', 'S') => Row("BTS", 0, 5)
    case ('B', 'T', 'C') => Row("BRIDGE.BTC", 1570, 8)
    case ('O', 'I', 'N') => Row("BADCOIN", 1578, 4)
    case _ => NO_ROW
  }

  function OpenRow(x: char, y: char, z: char): Row {
    match (x, y, z)
    case ('E', 'T', 'H') => Row("OPEN.ETH", 850, 6)
    case ('A', 'S', 'H') => Row("OPEN.DASH", 858, 8)
    case ('L', 'T', 'C') => Row("OPEN.LTC", 859, 8)
    case ('O', 'G', 'E') => Row("OPEN.DOGE", 860, 4)
    case ('B', 'T', 'C') => Row("OPEN.BTC", 861, 8)
    case ('E', 'E', 'M') => Row("OPEN.STEEM", 973, 3)
    case ('S', 'D', 'T') => Row("OPEN.USDT", 1042, 6)
    case ('E', 'O', 'S') => Row("OPEN.EOS", 1999, 6)
    case ('X', 'R', 'P') => Row("OPEN.XRP", 3428, 4)
    case ('.', 'I', 'Q') => Row("OPEN.IQ", 4721, 3)
    case _ => NO_ROW
  }

  function GdexRow(x: char, y: char, z: char): Row {
    match (x, y, z)
    case ('B', 'T', 'C') => Row("GDEX.BTC", 2241, 8)
    case ('S', 'D', 'T') => Row("GDEX.USDT", 5286, 7)
    case ('E', 'T', 'H') => Row("GDEX.ETH", 2598, 6)
    case ('E', 'O', 'S') => Row("GDEX.EOS", 2635, 6)
    case ('.', 'I', 'Q') => Row("GDEX.IQ", 4200, 5)
    case _ => NO_ROW
  }

  function RudexRow(x: char, y: char, z: char): Row {
    match (x, y, z)
    case ('B', 'T', 'C') => Row("RUDEX.BTC", 3926, 8)
    case ('E', 'O', 'S') => Row("RUDEX.EOS", 4106, 4)
    case ('E', 'T', 'H') => Row("RUDEX.ETH", 3715, 7)
    case ('E', 'E', 'M') => Row("RUDEX.STEEM", 1895, 3)
    case ('O', 'K', 'E') => Row("RUDEX.SMOKE", 4526, 3)
    case ('S', 'D', 'T') => Row("RUDEX.USDT", 5542, 6)
    case _ => NO_ROW
  }

  function DeexRow(x: char, y: char, z: char): Row {
    match (x, y, z)
    case ('E', 'E', 'X') => Row("DEEX", 2230, 4)
    case ('B', 'T', 'C') => Row("DEEX.BTC", 3880, 8)
    case ('E', 'O', 'S') => Row("DEEX.EOS", 4285, 6)
    case ('E', 'T', 'H') => Row("DEEX.ETH", 3448, 6)
    case ('L', 'T', 'C') => Row("DEEX.LTC", 3950, 8)
    case ('E', 'E', 'M') => Row("DEEX.STEEM", 4899, 8)
    case ('B', 'C', 'H') => Row("DEEX.BCH", 4248, 8)
    case ('A', 'S', 'H') => Row("DEEX.DASH", 3948, 8)
    case ('O', 'G', 'E') => Row("DEEX.DOGE", 3951, 4)
    case ('E', 'R', 'O') => Row("DEEX.MONERO", 4898, 8)
    case ('N', 'E', 'M') => Row("DEEX.NEM", 4386, 5)
    case _ => NO_ROW
  }

  function XbtsRow(x: char, y: char, z: char): Row {
    match (x, y, z)
    case ('B', 'T', 'C') => Row("XBTSX.BTC", 4157, 8)
    case ('S', 'T', 'H') => Row("XBTSX.STH", 4099, 6)
    case ('S', 'D', 'T') => Row("XBTSX.USDT", 5589, 6)
    case ('E', 'X', 'R') => Row("XBTSX.EXR", 5259, 4)
    case ('C', 'C', 'X') => Row("XBTSX.BCCX", 5539, 7)
    case ('B', 'C', 'H') => Row("XBTSX.BCH", 4274, 8)
    case ('B', 'T', 'G') => Row("XBTSX.BTG", 4275, 8)
    case ('E', 'T', 'H') => Row("XBTSX.ETH", 4760, 7)
    case ('L', 'T', 'C') => Row("XBTSX.LTC", 4159, 8)
    case ('V', 'E', 'S') => Row("XBTSX.WAVES", 4631, 8)
    case ('M', 'D', 'L') => Row("XBTSX.MDL", 5152, 6)
    case _ => NO_ROW
  }

  function HonestRow(x: char, y: char, z: char): Row {
    match (x, y, z)
    case ('E', 'R', 'O') => Row("HERO", 1362, 5)
    case ('R', 'T', 'Z') => Row("HERTZ", 1382, 4)
    case ('C', 'N', 'Y') => Row("HONEST.CNY", 5641, 4)
    case ('U', 'S', 'D') => Row("HONEST.USD", 5649, 4)
    case ('B', 'T', 'C') => Row("HONEST.BTC", 5650, 8)
    case ('X', 'A', 'U') => Row("HONEST.XAU", 5651, 8)
    case ('X', 'A', 'G') => Row("HONEST.XAG", 5652, 8)
    case ('E', 'T', 'H') => Row("HONEST.ETH", 5659, 6)
    case ('X', 'R', 'P') => Row("HONEST.XRP", 5660, 6)
    case ('R', 'P', '1') => Row("HONEST.XRP1", 5661, 6)
    case ('T', 'H', '1') => Row("HONEST.ETH1", 5662, 6)
    case _ => NO_ROW
  }

  function RowOf(a: char, x: char, y: char, z: char): Row {
    match a
    case 'b' => BitRow(x, y, z)
    case 'B' => EarlyRow(x, y, z)
    case 'O' => OpenRow(x, y, z)
    case 'G' => GdexRow(x, y, z)
    case 'R' => RudexRow(x, y, z)
    case 'D' => DeexRow(x, y, z)
    case 'X' => XbtsRow(x, y, z)
    case 'H' => HonestRow(x, y, z)
    case 'E' => Row("ESCODEX.BTC", 3458, 8)
    case 'U' => Row("URTHR", 4633, 5)
    case 'S' => Row("SKULD", 4634, 5)
    case 'V' => Row("VERTHANDI", 4635, 5)
    case _ => NO_ROW
  }

  /** The asset a symbol stands for, and its decimals: a listed one, or any by its number and without decimals. */
  function ReadSymbol(s: string): Row {
    if |s| < 3 then NO_ROW
    else if s[0] == '[' then
      (if |s| >= 6 && s[..5] == "[1.3." && s[|s| - 1] == ']' then Row(s, ValueOf(s[5..|s| - 1]), 0) else NO_ROW)
    else
      var row := RowOf(s[0], s[|s| - 3], s[|s| - 2], s[|s| - 1]);
      if row.symbol == s then row else NO_ROW
  }

  /** The numbers of the listed assets. */
  predicate ListedId(id: nat) {
    || id in {0, 102, 103, 105, 106, 110, 113, 114, 120, 121, 1325}
    || id in {850, 858, 859, 860, 861, 973, 1042, 1999, 3428, 4721}
    || id in {1570, 3458}
    || id in {1578, 1362, 1382, 4633, 4634, 4635}
    || id in {2241, 5286, 2598, 2635, 4200}
    || id in {3926, 4106, 3715, 1895, 4526, 5542}
    || id in {2230, 3880, 4285, 3448, 3950, 4899}
    || id in {4248, 3948, 3951, 4898, 4386}
    || id in {4157, 4099, 5589, 5259, 5539, 4274}
    || id in {4275, 4760, 4159, 4631, 5152}
    || id in {5641, 5649, 5650, 5651, 5652, 5659, 5660, 5661, 5662}
  }

  predicate ReadsBack(d: Description, id: nat) {
    var s := d.symbol;
    && 3 <= |s| <= 22 && s[0] != '['
    && RowOf(s[0], s[|s| - 3], s[|s| - 2], s[|s| - 1]) == Row(s, id, d.precision) && d.precision <= 8 && NoEnd(s)
  }

  lemma BitAssetRead(id: nat)
    requires BitAsset(id).Some?
    ensures ReadsBack(BitAsset(id).value, id)
  {
  }

  lemma OpenAssetRead(id: nat)
    requires OpenAsset(id).Some?
    ensures ReadsBack(OpenAsset(id).value, id)
  {
    hide ReadsBack, OpenAsset;
    if id < 900 {
      EarlierOpenRead(id);
    } else {
      LaterOpenRead(id);
    }
  }

  lemma EarlierOpenRead(id: nat)
    requires id < 900 && OpenAsset(id).Some?
    ensures ReadsBack(OpenAsset(id).value, id)
  {
  }

  lemma LaterOpenRead(id: nat)
    requires id >= 900 && OpenAsset(id).Some?
    ensures ReadsBack(OpenAsset(id).value, id)
  {
  }

  lemma BridgeAssetRead(id: nat)
    requires BridgeAsset(id).Some?
    ensures ReadsBack(BridgeAsset(id).value, id)
  {
  }

  lemma PlainAssetRead(id: nat)
    requires PlainAsset(id).Some?
    ensures ReadsBack(PlainAsset(id).value, id)
  {
  }

  lemma GdexAssetRead(id: nat)
    requires GdexAsset(id).Some?
    ensures ReadsBack(GdexAsset(id).value, id)
  {
  }

  lemma RudexAssetRead(id: nat)
    requires RudexAsset(id).Some?
    ensures ReadsBack(RudexAsset(id).value, id)
  {
  }

  lemma DeexAssetRead(id: nat)
    requires DeexAsset(id).Some?
    ensures ReadsBack(DeexAsset(id).value, id)
  {
  }

  lemma DeexCoinRead(id: nat)
    requires DeexCoin(id).Some?
    ensures ReadsBack(DeexCoin(id).value, id)
  {
  }

  lemma XbtsAssetRead(id: nat)
    requires XbtsAsset(id).Some?
    ensures ReadsBack(XbtsAsset(id).value, id)
  {
  }

  lemma XbtsCoinRead(id: nat)
    requires XbtsCoin(id).Some?
    ensures ReadsBack(XbtsCoin(id).value, id)
  {
  }

  lemma HonestAssetRead(id: nat)
    requires HonestAsset(id).Some?
    ensures ReadsBack(HonestAsset(id).value, id)
  {
    hide ReadsBack, HonestAsset;
    if id < 5652 {
      EarlierHonestRead(id);
    } else {
      LaterHonestRead(id);
    }
  }

  lemma EarlierHonestRead(id: nat)
    requires id < 5652 && HonestAsset(id).Some?
    ensures ReadsBack(HonestAsset(id).value, id)
  {
  }

  lemma LaterHonestRead(id: nat)
    requires id >= 5652 && HonestAsset(id).Some?
    ensures ReadsBack(HonestAsset(id).value, id)
  {
    hide ReadsBack, HonestAsset;
    if id < 5660 {
      MiddleHonestRead(id);
    } else {
      LastHonestRead(id);
    }
  }

  lemma MiddleHonestRead(id: nat)
    requires 5652 <= id < 5660 && HonestAsset(id).Some?
    ensures ReadsBack(HonestAsset(id).value, id)
  {
  }

  lemma LastHonestRead(id: nat)
    requires id >= 5660 && HonestAsset(id).Some?
    ensures ReadsBack(HonestAsset(id).value, id)
  {
  }

  lemma KnownRead(id: nat)
    requires KnownAsset(id).Some?
    ensures ReadsBack(KnownAsset(id).value, id)
  {
    hide BitAsset, OpenAsset, BridgeAsset, PlainAsset, GdexAsset, RudexAsset,
         DeexAsset, DeexCoin, XbtsAsset, XbtsCoin, HonestAsset, ReadsBack;
    if BitAsset(id).Some? {
      BitAssetRead(id);
    } else if OpenAsset(id).Some? {
      OpenAssetRead(id);
    } else if BridgeAsset(id).Some? {
      BridgeAssetRead(id);
    } else if PlainAsset(id).Some? {
      PlainAssetRead(id);
    } else if GdexAsset(id).Some? {
      GdexAssetRead(id);
    } else if RudexAsset(id).Some? {
      RudexAssetRead(id);
    } else if DeexAsset(id).Some? {
      DeexAssetRead(id);
    } else if DeexCoin(id).Some? {
      DeexCoinRead(id);
    } else if XbtsAsset(id).Some? {
      XbtsAssetRead(id);
    } else if XbtsCoin(id).Some? {
      XbtsCoinRead(id);
    } else {
      HonestAssetRead(id);
    }
  }

  /** Exactly the assets with these numbers are listed. */
  lemma ListedExactly(id: nat)
    ensures KnownAsset(id).Some? <==> ListedId(id)
  {
  }

  /** Every symbol is read back as its asset, with its decimals, so no two assets share one. */
  lemma SymbolBack(id: nat)
    ensures var d := AssetDescription(id); ReadSymbol(d.symbol) == Row(d.symbol, id, d.precision)
  {
    hide KnownAsset, RowOf;
    if KnownAsset(id).Some? {
      KnownRead(id);
    } else {
      DecimalBack(id);
      var s := AssetDescription(id).symbol;
      assert s[5..|s| - 1] == Decimal(id);
    }
  }

  /** The symbol and its terminator fit the 23 characters kept for them, and the power of ten fits 64 bits. */
  lemma SymbolFits(id: nat)
    ensures NoEnd(AssetDescription(id).symbol) && AssetDescription(id).precision <= 8
    ensures id < 0x1_0000_0000_0000 ==> |AssetDescription(id).symbol| + 1 <= 23
  {
    hide KnownAsset;
    if KnownAsset(id).Some? {
      KnownRead(id);
    } else {
      DecimalNoEnd(id);
      TenToThe15();
      DecimalLength(id, 15);
    }
  }

  lemma TenToThe15()
    ensures Pow(10, 15) == 1000_000_000_000_000 && Pow(10, 20) == 100_000_000_000_000_000_000
  {
    assert Pow(10, 1) == 10;
    PowAdd(10, 1, 4);
    assert Pow(10, 4) == 10 * (10 * (10 * Pow(10, 1)));
    PowAdd(10, 5, 5);
    PowAdd(10, 10, 5);
    PowAdd(10, 10, 10);
  }

  // ---- amounts ----

  /** The digits that matter at the end of a fraction. */
  function Strip(f: nat): nat {
    if f > 0 && f % 10 == 0 then Strip(f / 10) else f
  }

  function Stripped(f: nat): nat {
    if f > 0 && f % 10 == 0 then Stripped(f / 10) + 1 else 0
  }

  function FractionDigits(f: nat, precision: nat): string {
    if f == 0 || |Decimal(f)| > precision then ""
    else NoughtDigits(precision - |Decimal(f)|) + Decimal(Strip(f))
  }

  function Fraction(f: nat, precision: nat): string {
    var digits := FractionDigits(f, precision);
    if digits == "" then "" else "." + digits
  }

  /** The text of an amount counted in units of ten to the minus `precision`. */
  function AmountText(amount: nat, precision: nat): string {
    PowPositive(10, precision);
    Decimal(amount / Pow(10, precision)) + Fraction(amount % Pow(10, precision), precision)
  }

  lemma StripStep(f: nat)
    requires f > 0 && f % 10 == 0
    ensures 0 < f / 10 < f && f == f / 10 * 10 && Strip(f) == Strip(f / 10) && Stripped(f) == Stripped(f / 10) + 1
    ensures |Decimal(f)| == |Decimal(f / 10)| + 1
  {
    hide Pow;
    LastOfDecimal(f);
    DecimalIsDigits(f / 10);
  }

  lemma DecimalIsDigits(v: nat)
    ensures v > 0 ==> |Decimal(v)| == |Digits(v, 10)|
  {
    hide Digits;
  }

  lemma TenMore(s: nat, n: nat, f: nat)
    requires f == s * Pow(10, n)
    ensures f * 10 == s * Pow(10, n + 1)
  {
    var p := Pow(10, n);
    assert (s * p) * 10 == s * (10 * p);
  }

  lemma {:induction false} StripFacts(f: nat)
    requires f > 0
    ensures f == Strip(f) * Pow(10, Stripped(f)) && Strip(f) > 0 && Strip(f) % 10 != 0
    ensures |Decimal(f)| == |Decimal(Strip(f))| + Stripped(f)
  {
    if f % 10 == 0 {
      hide Strip, Stripped, Pow, Decimal;
      StripStep(f);
      StripFacts(f / 10);
      TenMore(Strip(f), Stripped(f / 10), f / 10);
    } else {
      assert Pow(10, 0) == 1;
    }
  }

  /** The last digit of a numeral is its value modulo ten. */
  lemma LastDigit(v: nat)
    requires v % 10 != 0
    ensures Decimal(v)[|Decimal(v)| - 1] != '0'
  {
    var d := Digits(v, 10);
    assert Decimal(v)[|d| - 1] == Digit(d[|d| - 1]) && d[|d| - 1] == v % 10;
  }

  /** The fraction is exact, has no more digits than the precision, and ends in none that could be dropped. */
  lemma FractionExact(f: nat, precision: nat)
    requires f < Pow(10, precision)
    ensures var digits := FractionDigits(f, precision);
      && AllDigits(digits) && |digits| <= precision && (digits == "" <==> f == 0)
      && ValueOf(digits) * Pow(10, precision - |digits|) == f
      && (digits != "" ==> digits[|digits| - 1] != '0')
  {
    hide Pow, Decimal, Val, Strip, Stripped, Digits;
    var digits := FractionDigits(f, precision);
    if f == 0 {
      ValueOfNothing();
    } else {
      OneIsPow();
      assert precision > 0;
      DecimalLength(f, precision);
      StripFacts(f);
      DecimalBack(Strip(f));
      NoughtsValue(precision - |Decimal(f)|, Decimal(Strip(f)));
      LastDigit(Strip(f));
    }
  }

  lemma ValueOfNothing()
    ensures ValueOf("") == 0
  {
  }

  lemma OneIsPow()
    ensures Pow(10, 0) == 1
  {
  }

  /** The position of the first c. */
  function FirstOf(s: string, c: char): nat {
    if s == "" || s[0] == c then 0 else 1 + FirstOf(s[1..], c)
  }

  lemma {:induction false} FirstIsThere(s: string, c: char, t: string)
    requires c !in s
    ensures FirstOf(s + [c] + t, c) == |s| && FirstOf(s, c) == |s|
  {
    if s == "" {
      assert s + [c] + t == [c] + t;
    } else {
      var w := s + [c] + t;
      assert w[1..] == s[1..] + [c] + t && w[0] == s[0];
      FirstIsThere(s[1..], c, t);
    }
  }

  function Scaled(v: nat, n: nat): nat {
    v * Pow(10, n)
  }

  /** The number of units an amount's text stands for. */
  function ReadAmount(s: string, precision: nat): nat {
    var dot := FirstOf(s, '.');
    var whole := if dot <= |s| then s[..dot] else s;
    var digits := if dot < |s| then s[dot + 1..] else "";
    if |digits| > precision then 0
    else Scaled(ValueOf(whole), precision) + Scaled(ValueOf(digits), precision - |digits|)
  }

  /**
   * The text of an amount is a decimal without needless digits that denotes exactly the amount: a whole part that
   * starts with 0 only if it is zero, and after a point, if there is one, digits of which the last is not 0.
   */
  lemma AmountExact(amount: nat, precision: nat)
    ensures Pow(10, precision) > 0
    ensures var whole := Decimal(amount / Pow(10, precision));
      var digits := FractionDigits(amount % Pow(10, precision), precision);
      && AmountText(amount, precision) == whole + (if digits == "" then "" else "." + digits)
      && AllDigits(whole) && AllDigits(digits) && (whole[0] == '0' ==> amount < Pow(10, precision))
      && |digits| <= precision && (digits != "" ==> digits[|digits| - 1] != '0')
      && ValueOf(whole) * Pow(10, precision) + ValueOf(digits) * Pow(10, precision - |digits|) == amount
  {
    hide Pow, Decimal, Val, FractionDigits, ValueOf;
    PowPositive(10, precision);
    DecimalBack(amount / Pow(10, precision));
    FractionExact(amount % Pow(10, precision), precision);
  }

  lemma AmountBack(amount: nat, precision: nat)
    ensures ReadAmount(AmountText(amount, precision), precision) == amount && ' ' !in AmountText(amount, precision)
    ensures NoEnd(AmountText(amount, precision))
  {
    hide Pow, Decimal, FractionDigits, ValueOf, FirstOf, AmountText;
    AmountExact(amount, precision);
    var whole := Decimal(amount / Pow(10, precision));
    var digits := FractionDigits(amount % Pow(10, precision), precision);
    FirstIsThere(whole, '.', digits);
    var s := AmountText(amount, precision);
    if digits != "" {
      assert s == whole + ['.'] + digits;
      assert s[..|whole|] == whole && s[|whole| + 1..] == digits;
    } else {
      assert s == whole && s[..|whole|] == whole;
      assert FirstOf(s, '.') == |s|;
    }
  }

  // ---- assets ----

  function AssetText(a: Asset): string {
    var d := AssetDescription(a.instanceId);
    AmountText(a.amount, d.precision) + " " + d.symbol
  }

  /** Units and number of an asset, from its text and the decimals that are known for its symbol. */
  function ReadAsset(s: string): Asset {
    var blank := FirstOf(s, ' ');
    var row := ReadSymbol(if blank < |s| then s[blank + 1..] else "");
    Asset(ReadAmount(if blank <= |s| then s[..blank] else s, row.decimals), row.id)
  }

  /** The text says exactly which asset and how much of it, for every amount and every asset. */
  lemma AssetTextBack(a: Asset)
    ensures ReadAsset(AssetText(a)) == a
  {
    hide AmountText, ReadAmount, ReadSymbol, AssetDescription, FirstOf;
    var d := AssetDescription(a.instanceId);
    var t := AmountText(a.amount, d.precision);
    AmountBack(a.amount, d.precision);
    SymbolBack(a.instanceId);
    FirstIsThere(t, ' ', d.symbol);
    var s := AssetText(a);
    assert s == t + [' '] + d.symbol;
    assert s[..|t|] == t && s[|t| + 1..] == d.symbol;
  }

  /**
   * The text of an asset is a decimal, a blank and a symbol, and with the decimals that are known for that symbol the
   * decimal denotes the amount.
   */
  lemma AssetTextExact(a: Asset) returns (whole: string, digits: string, symbol: string)
    ensures AssetText(a) == whole + (if digits == "" then "" else "." + digits) + " " + symbol
    ensures AllDigits(whole) && AllDigits(digits) && whole != ""
    ensures var row := ReadSymbol(symbol);
      && row.symbol == symbol && row.id == a.instanceId && |digits| <= row.decimals
      && ValueOf(whole) * Pow(10, row.decimals) + ValueOf(digits) * Pow(10, row.decimals - |digits|) == a.amount
    ensures !ListedId(a.instanceId) ==> ReadSymbol(symbol).decimals == 0
  {
    hide Pow, Decimal, FractionDigits, ValueOf, AmountText, ReadSymbol, KnownAsset, ListedId;
    var d := AssetDescription(a.instanceId);
    SymbolBack(a.instanceId);
    ListedExactly(a.instanceId);
    AmountExact(a.amount, d.precision);
    DecimalBack(a.amount / Pow(10, d.precision));
    whole := Decimal(a.amount / Pow(10, d.precision));
    digits := FractionDigits(a.amount % Pow(10, d.precision), d.precision);
    symbol := d.symbol;
  }

  /** Different amounts or assets never look alike. */
  lemma AssetTextInjective(a: Asset, b: Asset)
    requires AssetText(a) == AssetText(b)
    ensures a == b
  {
    hide AssetText, ReadAsset;
    AssetTextBack(a);
    AssetTextBack(b);
  }

  // ---- writing them ----

  /** `strcpy`. */
  method Strcpy(b: array<char>, at: nat, s: string)
    requires at + |s| < b.Length && NoEnd(s)
    modifies b
    ensures IsText(b, at, s) && OnlyWithin(b, at, at + |s| + 1)
  {
    Snprintf(b, at, |s| + 1, s);
  }

  /** `getBtsAssetDescription`, for instance ids as the varints hold them. */
  method GetBtsAssetDescription(id: nat) returns (known: bool, precision: nat, symbol: array<char>)
    requires id < 0x1_0000_0000_0000
    ensures fresh(symbol) && symbol.Length == 23 && (known <==> ListedId(id))
    ensures precision == AssetDescription(id).precision && IsText(symbol, 0, AssetDescription(id).symbol)
    ensures ReadSymbol(AssetDescription(id).symbol) == Row(AssetDescription(id).symbol, id, precision)
  {
    hide KnownAsset, Decimal, ListedId, ReadSymbol;
    SymbolFits(id);
    SymbolBack(id);
    ListedExactly(id);
    symbol := new char[23];
    match KnownAsset(id) {
      case Some(d) =>
        known, precision := true, d.precision;
        Strcpy(symbol, 0, d.symbol);
      case None =>
        known, precision := false, 0;
        PrintId(symbol, id);
    }
  }

  /** The default: the asset as it is named by its id. */
  method PrintId(symbol: array<char>, id: nat)
    requires symbol.Length == 23 && 5 + |Decimal(id)| + 1 < 23
    modifies symbol
    ensures IsText(symbol, 0, "[1.3." + Decimal(id) + "]")
  {
    hide Decimal;
    var start := "[1.3.";
    Strcpy(symbol, 0, start);
    var written := Strlen(symbol, 0, start);
    ghost var d := Decimal(id);
    DecimalNoEnd(id);
    assert symbol[..5] == start;
    Ui64toa(id, symbol, written);
    assert symbol[..5] == start;
    Joined(symbol, 0, start, d);
    written := Strlen(symbol, 0, start + d);
    assert symbol[..written] == start + d;
    Strcpy(symbol, written, "]");
    assert symbol[..written] == start + d;
    Joined(symbol, 0, start + d, "]");
  }

  lemma QuotientAtLeast(a: nat, d: nat, k: nat)
    requires d > 0
    ensures a / d >= k <==> a >= k * d
  {
    var q := a / d;
    assert a == q * d + a % d;
    if q >= k {
      MulMono(k, q, d, d);
    } else {
      MulMono(q + 1, k, d, d);
    }
  }

  /** The test of the source for one more leading nought: its integer quotient is exact enough. */
  lemma LeadingNought(f: nat, n: nat)
    requires n > 0
    ensures Pow(10, n) / (f + 1) >= 10 <==> f < Pow(10, n - 1)
  {
    QuotientAtLeast(Pow(10, n), f + 1, 10);
  }

  /** Between its two loops the source knows how many noughts come first. */
  lemma NoughtsDone(f: nat, n: nat)
    requires 0 < f < Pow(10, n) && !(Pow(10, n) / (f + 1) >= 10)
    ensures |Decimal(f)| == n
  {
    OneIsPow();
    LeadingNought(f, n);
    DecimalLength(f, n);
    if n > 1 {
      DecimalLength(f, n - 1);
    }
  }

  lemma {:induction false} StripKeepsText(f: nat)
    ensures Strip(f) > 0 <==> f > 0
  {
    if f > 0 {
      StripFacts(f);
    }
  }

  method PowerOfTen(precision: nat) returns (p10: nat)
    ensures p10 == Pow(10, precision)
  {
    var p: nat := precision;
    p10 := 1;
    while p > 0
      invariant p <= precision && p10 == Pow(10, precision - p)
    {
      p10 := p10 * 10;
      p := p - 1;
    }
  }

  /** How many noughts stand between the point and the digits of a fraction. */
  method LeadingNoughts(fractional: nat, power: nat, precision: nat) returns (p: nat)
    requires power == Pow(10, precision) && fractional < power
    ensures p <= precision && (fractional > 0 ==> |Decimal(fractional)| == precision - p)
  {
    hide Decimal, Pow;
    p := 0;
    var p10: nat := power;
    while fractional > 0 && p10 > 1 && p10 / (fractional + 1) >= 10
      invariant p <= precision && p10 == Pow(10, precision - p) && fractional < p10
      decreases precision - p
    {
      TenTimes(precision - p, p10);
      LeadingNought(fractional, precision - p);
      p10 := p10 / 10;
      p := p + 1;
    }
    if fractional > 0 {
      NoughtsDone(fractional, precision - p);
    }
  }

  lemma TenTimes(n: nat, p10: nat)
    requires p10 == Pow(10, n) && p10 > 1
    ensures n > 0 && p10 / 10 == Pow(10, n - 1)
  {
  }

  method StripNoughts(f: nat) returns (fractional: nat)
    ensures fractional == Strip(f)
  {
    fractional := f;
    while fractional > 0 && fractional % 10 == 0
      invariant Strip(fractional) == Strip(f)
      decreases fractional
    {
      fractional := fractional / 10;
    }
  }

  /** The arithmetic of `prettyPrintBtsAssetType`: whole part, leading noughts and the digits behind them. */
  method SplitAmount(amount: nat, precision: nat) returns (integral: nat, noughts: nat, fractional: nat)
    ensures Pow(10, precision) > 0 && integral == amount / Pow(10, precision)
    ensures var f := amount % Pow(10, precision);
      && fractional == Strip(f) && noughts <= precision
      && (f > 0 ==> |Decimal(f)| <= precision && noughts == precision - |Decimal(f)|)
  {
    hide Decimal, Pow, Strip;
    PowPositive(10, precision);
    var p10 := PowerOfTen(precision);
    fractional := amount % p10;
    integral := (amount - fractional) / p10;
    WholePart(amount, p10);
    noughts := LeadingNoughts(fractional, p10, precision);
    fractional := StripNoughts(fractional);
  }

  lemma WholePart(amount: nat, p10: nat)
    requires p10 > 0
    ensures amount - amount % p10 >= 0 && (amount - amount % p10) / p10 == amount / p10
  {
    var q := amount / p10;
    assert amount == q * p10 + amount % p10;
    DivModUnique(amount - amount % p10, p10, q, 0);
  }

  /** The pieces the source writes. */
  lemma AmountParts(amount: nat, precision: nat)
    ensures Pow(10, precision) > 0
    ensures var p10 := Pow(10, precision);
      var f := amount % p10;
      && |Decimal(amount / p10)| <= |Decimal(amount)|
      && (f > 0 ==> |Decimal(f)| <= precision && |Decimal(Strip(f))| <= |Decimal(f)|)
      && AmountText(amount, precision) == Decimal(amount / p10)
           + (if f > 0 then "." + NoughtDigits(precision - |Decimal(f)|) + Decimal(Strip(f)) else "")
  {
    hide Decimal, Pow, Strip, Val, Digits, ValueOf;
    PowPositive(10, precision);
    var p10 := Pow(10, precision);
    var f := amount % p10;
    ShorterQuotient(amount, p10);
    if f > 0 {
      OneIsPow();
      DecimalLength(f, precision);
      StripFacts(f);
      DecimalBack(Strip(f));
      var z := NoughtDigits(precision - |Decimal(f)|);
      assert "." + z + Decimal(Strip(f)) == "." + (z + Decimal(Strip(f)));
    }
  }

  lemma SmallerQuotient(v: nat, d: nat)
    requires d > 0
    ensures v / d <= v
  {
    var q := v / d;
    assert v == q * d + v % d;
    MulMono(q, q, 1, d);
  }

  lemma ShorterQuotient(v: nat, d: nat)
    requires d > 0
    ensures |Decimal(v / d)| <= |Decimal(v)|
  {
    hide Pow, Decimal, Val, Digits;
    var n, q := |Decimal(v)|, v / d;
    SmallerQuotient(v, d);
    DecimalBack(v);
    DecimalLength(v, n);
    DecimalLength(q, n);
  }

  predicate AssetFitsText(asset: Asset) {
    asset.amount < 0x1_0000_0000_0000_0000 && asset.instanceId < 0x1_0000_0000_0000
  }

  lemma TextFits(asset: Asset)
    requires AssetFitsText(asset)
    ensures |Decimal(asset.amount)| <= 20
    ensures |AssetDescription(asset.instanceId).symbol| <= 22 && AssetDescription(asset.instanceId).precision <= 8
  {
    hide Decimal, Pow;
    SymbolFits(asset.instanceId);
    TenToThe15();
    DecimalLength(asset.amount, 20);
  }

  /** The point and the noughts behind it; the buffer has no end yet. */
  method PrintNoughts(buffer: array<char>, at: nat, start: nat, noughts: nat, ghost text: string) returns (written: nat)
    requires HasText(buffer, at, text) && start == |text| && at + start + 1 + noughts < buffer.Length
    modifies buffer
    ensures written == start + 1 + noughts && HasText(buffer, at, text + "." + NoughtDigits(noughts))
    ensures OnlyWithin(buffer, at, at + written)
  {
    written := start;
    buffer[at + written] := '.';
    written := written + 1;
    var p: nat := noughts;
    assert buffer[at..at + written] == text + "." + NoughtDigits(0);
    while p > 0
      invariant p <= noughts && written == start + 1 + noughts - p
      invariant buffer[at..at + written] == text + "." + NoughtDigits(noughts - p)
      invariant OnlyWithin(buffer, at, at + written)
    {
      buffer[at + written] := '0';
      written := written + 1;
      p := p - 1;
    }
  }

  method PrintFraction(buffer: array<char>, at: nat, start: nat, noughts: nat, fractional: nat, ghost text: string)
    returns (written: nat)
    requires IsText(buffer, at, text) && start == |text|
    requires at + start + 1 + noughts + |Decimal(fractional)| < buffer.Length
    modifies buffer
    ensures IsText(buffer, at, text + "." + NoughtDigits(noughts) + Decimal(fractional))
    ensures written == start + 1 + noughts + |Decimal(fractional)| && OnlyWithin(buffer, at, at + written + 1)
  {
    hide Decimal, NoughtDigits;
    NoughtLength(noughts);
    ghost var front := text + "." + NoughtDigits(noughts);
    written := PrintNoughts(buffer, at, start, noughts, text);
    Ui64toa(fractional, buffer, at + written);
    assert buffer[at..at + written] == front;
    Joined(buffer, at, front, Decimal(fractional));
    written := Strlen(buffer, at, front + Decimal(fractional));
  }

  /** The part of `prettyPrintBtsAssetType` in front of the symbol. */
  method PrintAmount(buffer: array<char>, at: nat, amount: nat, precision: nat) returns (written: nat)
    requires at + |Decimal(amount)| + 1 + precision < buffer.Length
    modifies buffer
    ensures IsText(buffer, at, AmountText(amount, precision)) && written == |AmountText(amount, precision)|
    ensures written <= |Decimal(amount)| + 1 + precision && OnlyWithin(buffer, at, at + written + 1)
  {
    hide Decimal, NoughtDigits, Pow, Strip, AmountText;
    AmountParts(amount, precision);
    var integral, p, fractional := SplitAmount(amount, precision);
    StripKeepsText(amount % Pow(10, precision));
    Ui64toa(integral, buffer, at);
    written := Strlen(buffer, at, Decimal(integral));
    if fractional > 0 {
      written := PrintFraction(buffer, at, written, p, fractional, Decimal(integral));
      NoughtLength(p);
      FourParts(Decimal(integral), NoughtDigits(p), Decimal(fractional));
    }
  }

  lemma FourParts(a: string, b: string, c: string)
    ensures a + "." + b + c == a + ("." + b + c)
  {
  }

  /** `prettyPrintBtsAssetType`, for any 64-bit amount: 54 characters are always enough. */
  method PrettyPrintBtsAssetType(asset: Asset, buffer: array<char>, at: nat) returns (written: nat)
    requires AssetFitsText(asset) && at + 54 <= buffer.Length
    modifies buffer
    ensures IsText(buffer, at, AssetText(asset)) && written == |AssetText(asset)| && OnlyWithin(buffer, at, at + 54)
    ensures ReadAsset(buffer[at..at + written]) == asset
  {
    hide AssetText, ReadAsset;
    AssetTextBack(asset);
    written := PrintAsset(asset, buffer, at);
    assert buffer[at..at + written] == AssetText(asset);
  }

  method PrintAsset(asset: Asset, buffer: array<char>, at: nat) returns (written: nat)
    requires AssetFitsText(asset) && at + 54 <= buffer.Length
    modifies buffer
    ensures IsText(buffer, at, AssetText(asset)) && written == |AssetText(asset)| && OnlyWithin(buffer, at, at + 54)
  {
    hide Decimal, AssetDescription, AmountText, ReadSymbol;
    TextFits(asset);
    SymbolFits(asset.instanceId);
    var _, precision, symbol := GetBtsAssetDescription(asset.instanceId);
    ghost var amount := AmountText(asset.amount, precision);
    AmountBack(asset.amount, precision);
    written := PrintAmount(buffer, at, asset.amount, precision);
    assert buffer[at..at + written] == amount;
    var length := Strlen(symbol, 0, AssetDescription(asset.instanceId).symbol);
    written := PrintSymbol(buffer, at, written, symbol[..length], amount);
  }

  /** A blank and the symbol behind the amount. */
  method PrintSymbol(buffer: array<char>, at: nat, start: nat, symbol: string,
                     ghost amount: string) returns (written: nat)
    requires IsText(buffer, at, amount) && start == |amount| && NoEnd(symbol)
    requires at + start + 1 + |symbol| < buffer.Length
    modifies buffer
    ensures IsText(buffer, at, amount + " " + symbol) && written == |amount + " " + symbol|
    ensures OnlyWithin(buffer, at, at + written + 1)
  {
    written := start;
    buffer[at + written] := ' ';
    written := written + 1;
    assert buffer[at..at + written] == amount + " ";
    Strcpy(buffer, at + written, symbol);
    assert buffer[at..at + written] == amount + " ";
    Joined(buffer, at, amount + " ", symbol);
    written := Strlen(buffer, at, amount + " " + symbol);
  }
}
