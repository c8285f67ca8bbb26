/**
 * What a list still tells when the value line cuts it: all of its entries, exactly if enough of the last number is
 * left.
 */
module CutLists {
  import opened Numerals
  import opened CText
  import opened Lists
  import opened ParseOperations

  /** An entry of a list: what stands in front of its colon, and the number that it ends with. */
  datatype Entry = Entry(name: string, number: nat)

  /** Entries of accounts and keys are in brackets, with a blank behind the colon; votes are bare. */
  function Item(e: Entry, closed: bool): string {
    e.name + Colon(closed) + (Decimal(e.number) + Tail(closed))
  }

  function Colon(closed: bool): string {
    if closed then ": " else ":"
  }

  function Tail(closed: bool): string {
    if closed then "]" else ""
  }

  function Items(es: seq<Entry>, closed: bool): seq<string> {
    seq(|es|, i requires 0 <= i < |es| => Item(es[i], closed))
  }

  function Separator(last: bool): string {
    if last then " " else ",  "
  }

  /** The list from its front: the first entry, and the list of the others. */
  function Flow(es: seq<Entry>, closed: bool): string {
    if es == [] then "" else Item(es[0], closed) + Separator(|es| == 1) + Flow(es[1..], closed)
  }

  predicate Named(es: seq<Entry>) {
    forall e <- es :: ':' !in e.name
  }

  /** The list without its last number and what follows that. */
  function Before(es: seq<Entry>, closed: bool): string
    requires es != []
  {
    var n := |es| - 1;
    Listed(Items(es, closed), n) + (es[n].name + Colon(closed))
  }

  /** Where the last number of the list ends. */
  function NumberEnd(es: seq<Entry>, closed: bool): nat
    requires es != []
  {
    |Before(es, closed)| + |Decimal(es[|es| - 1].number)|
  }

  /**
   * The line ends behind the last number: either something that follows the number is on it, or the number ends with
   * the line and could not be any longer.
   */
  predicate Told(es: seq<Entry>, closed: bool, bound: nat) {
    es != [] ==>
      var end, v := NumberEnd(es, closed), es[|es| - 1].number;
      end < 127 || (end == 127 && (v == 0 || v * 10 >= bound))
  }

  // ---- the two ways to take a list apart ----

  lemma {:induction false} ListedFront(items: seq<string>, n: nat)
    requires 0 < n <= |items|
    ensures Listed(items, n) == items[0] + Separator(|items| == 1) + Listed(items[1..], n - 1)
  {
    if n > 1 {
      ListedFront(items, n - 1);
      assert items[1..][n - 2] == items[n - 1];
    }
  }

  lemma {:induction false} FlowIsListed(es: seq<Entry>, closed: bool)
    ensures Flow(es, closed) == Listed(Items(es, closed), |es|)
  {
    hide Item;
    if es != [] {
      var items := Items(es, closed);
      FlowIsListed(es[1..], closed);
      assert items[1..] == Items(es[1..], closed);
      ListedFront(items, |es|);
    }
  }

  /** From the back: all that comes before the last number, the number, and its end. */
  lemma FlowLast(es: seq<Entry>, closed: bool)
    requires es != []
    ensures Flow(es, closed) == Before(es, closed) + Decimal(es[|es| - 1].number) + (Tail(closed) + " ")
    ensures |Flow(es, closed)| == NumberEnd(es, closed) + |Tail(closed)| + 1
  {
    hide Decimal, Flow, Colon, Tail;
    FlowIsListed(es, closed);
  }

  // ---- reading from the front ----

  lemma Agree(s: string, t: string, k: nat)
    requires s <= t && k < |s|
    ensures s[k] == t[k]
  {
  }

  lemma ColonSplits(g: string, x: string, h: string, y: string)
    requires ':' !in g && ':' !in h && g + (":" + x) <= h + (":" + y)
    ensures g == h && x <= y
  {
    var s, t := g + (":" + x), h + (":" + y);
    assert s[|g|] == t[|g|] == ':';
    if |h| < |g| {
      Agree(s, t, |h|);
      assert false;
    }
    if |g| < |h| {
      assert false;
    }
    assert g == s[..|g|] == t[..|g|] == h;
    assert s[|g| + 1..] == x && t[|g| + 1..] == y;
  }

  predicate Digital(c: char) {
    '0' <= c <= '9'
  }

  lemma DigitAt(s: string, k: nat)
    requires AllDigits(s) && k < |s|
    ensures Digital(s[k])
  {
    assert s[k] in s;
  }

  /** Two numerals, each with something behind it that is no digit, of which the second one is seen in whole. */
  lemma NumeralSplits(d: string, x: string, e: string, y: string)
    requires AllDigits(d) && AllDigits(e) && x != "" && y != "" && !Digital(x[0]) && !Digital(y[0])
    requires d + x <= e + y
    ensures d == e && x <= y
  {
    var s, t := d + x, e + y;
    assert s[|d|] == x[0];
    if |d| < |e| {
      DigitAt(e, |d|);
      assert false;
    }
    if |e| < |d| {
      DigitAt(d, |e|);
      Agree(s, t, |e|);
      assert false;
    }
    assert d == s[..|d|] == t[..|d|] == e;
    assert s[|d|..] == x && t[|d|..] == y;
  }

  /** A numeral of which only the beginning is known. */
  lemma NumeralBegins(d: string, e: string, y: string)
    requires AllDigits(d) && AllDigits(e) && y != "" && !Digital(y[0]) && d <= e + y
    ensures d <= e
  {
    if |e| < |d| {
      DigitAt(d, |e|);
      assert false;
    }
  }

  function Ending(closed: bool, last: bool): string {
    Tail(closed) + Separator(last)
  }

  /** The front of a list: a name, a colon, a number, its end, and the other entries. */
  lemma FlowFirst(es: seq<Entry>, closed: bool)
    requires es != []
    ensures Flow(es, closed) == es[0].name + (Colon(closed) + (Decimal(es[0].number)
                                + (Ending(closed, |es| == 1) + Flow(es[1..], closed))))
  {
    hide Decimal, Flow, Colon, Tail, Separator;
    FlowStep(es, closed);
  }

  lemma FlowStep(es: seq<Entry>, closed: bool)
    requires es != []
    ensures Flow(es, closed) == Item(es[0], closed) + Separator(|es| == 1) + Flow(es[1..], closed)
  {
    hide Item, Separator;
  }

  lemma ColonsSplit(closed: bool, g: string, x: string, h: string, y: string)
    requires ':' !in g && ':' !in h && g + (Colon(closed) + x) <= h + (Colon(closed) + y)
    ensures g == h && x <= y
  {
    if closed {
      assert Colon(true) + x == ":" + (" " + x) && Colon(true) + y == ":" + (" " + y);
      ColonSplits(g, " " + x, h, " " + y);
      assert x == (" " + x)[1..] && y == (" " + y)[1..];
    } else {
      ColonSplits(g, x, h, y);
    }
  }

  lemma EndingsSplit(closed: bool, last: bool)
    ensures Ending(closed, last) != "" && !Digital(Ending(closed, last)[0])
  {
  }

  /** The beginning of a list, up to its last number at least, is that of a list with as many entries. */
  ghost predicate Seen(es: seq<Entry>, fs: seq<Entry>, closed: bool, k: nat) {
    && es != [] && |es| == |fs| && Named(es) && Named(fs)
    && |Flow(es, closed)| - |Tail(closed)| - 1 <= k <= |Flow(es, closed)| && Flow(es, closed)[..k] <= Flow(fs, closed)
  }

  /** It tells all entries but the last number, and if anything behind that is seen, also the last number. */
  lemma {:induction false} SeenTells(es: seq<Entry>, fs: seq<Entry>, closed: bool, k: nat)
    requires Seen(es, fs, closed, k)
    ensures var n := |es| - 1;
      && es[..n] == fs[..n] && es[n].name == fs[n].name && Decimal(es[n].number) <= Decimal(fs[n].number)
      && (k > |Flow(es, closed)| - |Tail(closed)| - 1 ==> es == fs)
    decreases |es|
  {
    hide Decimal, Flow, Colon, Ending, Named;
    if |es| == 1 {
      LastSeen(es, fs, closed, k);
    } else {
      FirstSeen(es, fs, closed, k);
      var skip := |Flow(es, closed)| - |Flow(es[1..], closed)|;
      SeenTells(es[1..], fs[1..], closed, k - skip);
      assert es == [es[0]] + es[1..] && fs == [fs[0]] + fs[1..];
    }
  }

  lemma FirstSeen(es: seq<Entry>, fs: seq<Entry>, closed: bool, k: nat)
    requires Seen(es, fs, closed, k) && |es| > 1
    ensures es[0] == fs[0] && |Flow(es[1..], closed)| <= |Flow(es, closed)|
    ensures var skip := |Flow(es, closed)| - |Flow(es[1..], closed)|;
      skip <= k && Seen(es[1..], fs[1..], closed, k - skip)
  {
    hide Decimal, Flow, Colon, Ending, Tail;
    var a, b, last := es[0], fs[0], |es| == 1;
    var more, others := Flow(es[1..], closed), Flow(fs[1..], closed);
    FlowFirst(es, closed);
    FlowFirst(fs, closed);
    FlowLast(es[1..], closed);
    var skip := |Flow(es, closed)| - |more|;
    var d, e, end := Decimal(a.number), Decimal(b.number), Ending(closed, false);
    var seen := more[..k - skip];
    CutBehind(a.name, Colon(closed), d, end, more, k);
    FirstNamed(es);
    FirstNamed(fs);
    ColonsSplit(closed, a.name, d + (end + seen), b.name, e + (end + others));
    NumbersSplit(a.number, seen, b.number, others, closed);
  }

  lemma CutBehind(a: string, b: string, c: string, d: string, more: string, k: nat)
    requires |a| + |b| + |c| + |d| <= k <= |a| + |b| + |c| + |d| + |more|
    ensures (a + (b + (c + (d + more))))[..k] == a + (b + (c + (d + more[..k - |a| - |b| - |c| - |d|])))
  {
  }

  lemma NumbersSplit(v: nat, x: string, w: nat, y: string, closed: bool)
    requires var end := Ending(closed, false); Decimal(v) + (end + x) <= Decimal(w) + (end + y)
    ensures v == w && x <= y
  {
    hide Decimal, Ending;
    DecimalBack(v);
    DecimalBack(w);
    EndingsSplit(closed, false);
    var end := Ending(closed, false);
    NumeralSplits(Decimal(v), end + x, Decimal(w), end + y);
    assert x == (end + x)[|end|..] && y == (end + y)[|end|..];
  }

  lemma FirstNamed(es: seq<Entry>)
    requires Named(es) && es != []
    ensures ':' !in es[0].name && Named(es[1..])
  {
  }

  lemma LastSeen(es: seq<Entry>, fs: seq<Entry>, closed: bool, k: nat)
    requires Seen(es, fs, closed, k) && |es| == 1
    ensures es[0].name == fs[0].name && Decimal(es[0].number) <= Decimal(fs[0].number)
    ensures k > |Flow(es, closed)| - |Tail(closed)| - 1 ==> es == fs
  {
    hide Decimal, Colon, Ending, Tail, Flow;
    var a, b := es[0], fs[0];
    FlowFirst(es, closed);
    FlowFirst(fs, closed);
    NoFlow(closed);
    var d, e, end := Decimal(a.number), Decimal(b.number), Ending(closed, true);
    EndingLength(closed);
    var seen := end[..k - (|Flow(es, closed)| - |end|)];
    assert es[1..] == [] && fs[1..] == [];
    assert Flow(es, closed)[..k] == a.name + (Colon(closed) + (d + seen));
    FirstNamed(es);
    FirstNamed(fs);
    ColonsSplit(closed, a.name, d + seen, b.name, e + (end + ""));
    DecimalBack(a.number);
    DecimalBack(b.number);
    EndingsSplit(closed, true);
    if seen == "" {
      assert d + seen == d;
      NumeralBegins(d, e, end + "");
    } else {
      NumeralSplits(d, seen, e, end + "");
    }
  }

  lemma NoFlow(closed: bool)
    ensures Flow([], closed) == ""
  {
  }

  lemma EndingLength(closed: bool)
    ensures |Ending(closed, true)| == |Tail(closed)| + 1
  {
  }

  /** A number whose numeral begins another's is ten times smaller, unless it is the same. */
  lemma LongerNumeral(v: nat, w: nat)
    requires Decimal(v) <= Decimal(w)
    ensures v == w || (v > 0 && w >= 10 * v)
  {
    hide Decimal, Val, Pow;
    var d, e := Decimal(v), Decimal(w);
    DecimalBack(v);
    DecimalBack(w);
    ZeroNumeral();
    if v > 0 && |d| < |e| {
      var t := e[|d|..];
      assert e == d + t && e[0] == d[0];
      ValueOfJoin(d, t);
      PowStep(10, |t|);
      PowPositive(10, |t| - 1);
      TenTimesAtLeast(v, Pow(10, |t| - 1), ValueOf(t));
    } else if v > 0 {
      assert d == e;
    } else {
      assert e[0] == d[0];
    }
  }

  lemma ZeroNumeral()
    ensures Decimal(0) == "0"
  {
  }

  lemma TenTimesAtLeast(v: nat, p: nat, more: nat)
    requires p > 0
    ensures v * (10 * p) + more >= 10 * v
  {
    assert v * p >= v;
  }

  predicate Within(es: seq<Entry>, bound: nat) {
    forall e <- es :: e.number < bound
  }

  /** The lists read alike on the line. */
  predicate LooksAlike(es: seq<Entry>, fs: seq<Entry>, closed: bool) {
    |es| == |fs| && Line(Rendered(Items(es, closed))) == Line(Rendered(Items(fs, closed)))
  }

  /** A list that is told is not mistaken for any other of as many entries. */
  lemma ToldTells(es: seq<Entry>, fs: seq<Entry>, closed: bool, bound: nat)
    requires Named(es) && Named(fs) && Within(fs, bound) && Told(es, closed, bound) && LooksAlike(es, fs, closed)
    ensures es == fs
  {
    hide Decimal, Flow, Tail, NumberEnd, Named, Within, LooksAlike;
    AsMany(es, fs, closed);
    if es != [] {
      var n := |es| - 1;
      var k := LineSeen(es, fs, closed);
      FlowEnd(es, closed);
      SeenTells(es, fs, closed, k);
      if k == NumberEnd(es, closed) {
        LongerNumeral(es[n].number, fs[n].number);
        LastWithin(fs, bound);
        assert es == es[..n] + [es[n]] && fs == fs[..n] + [fs[n]];
      }
    }
  }

  lemma AsMany(es: seq<Entry>, fs: seq<Entry>, closed: bool)
    requires LooksAlike(es, fs, closed)
    ensures |es| == |fs|
  {
    hide Rendered, Items, Line;
  }

  lemma FlowEnd(es: seq<Entry>, closed: bool)
    requires es != []
    ensures |Flow(es, closed)| == NumberEnd(es, closed) + |Tail(closed)| + 1
  {
    hide Flow, Before;
    FlowLast(es, closed);
  }

  lemma LineSeen(es: seq<Entry>, fs: seq<Entry>, closed: bool) returns (k: nat)
    requires LooksAlike(es, fs, closed) && es != []
    ensures k == if |Flow(es, closed)| < 127 then |Flow(es, closed)| else 127
    ensures Flow(es, closed)[..k] <= Flow(fs, closed)
  {
    hide Flow, Listed, Item;
    FlowIsListed(es, closed);
    FlowIsListed(fs, closed);
    k := if |Flow(es, closed)| < 127 then |Flow(es, closed)| else 127;
    assert Flow(es, closed)[..k] == Cut(Flow(es, closed), 127) == Cut(Flow(fs, closed), 127);
  }

  lemma LastWithin(es: seq<Entry>, bound: nat)
    requires es != [] && Within(es, bound)
    ensures es[|es| - 1].number < bound
  {
  }

  // ---- lists that are not told ----

  /** Another number that looks the same where the line ends: its last digit differs, or it has one digit more. */
  function OtherNumber(v: nat, end: nat): nat {
    if end > 127 then (if v % 10 == 0 then v + 1 else v - 1)
    else v * 10
  }

  /** The list with another last number. */
  function WithLast(es: seq<Entry>, v: nat): seq<Entry>
    requires es != []
  {
    es[|es| - 1 := es[|es| - 1].(number := v)]
  }

  /** A list that is not told looks like another one, which differs in the last number only. */
  lemma NotTold(es: seq<Entry>, closed: bool, bound: nat)
    requires !Told(es, closed, bound) && Within(es, bound) && bound % 10 != 1
    ensures var v := es[|es| - 1].number;
      var w := OtherNumber(v, NumberEnd(es, closed));
      v != w < bound && LooksAlike(es, WithLast(es, w), closed)
  {
    hide Decimal, Flow, Colon, Tail, Before, Listed, Within;
    var n := |es| - 1;
    var v := es[n].number;
    var w := OtherNumber(v, NumberEnd(es, closed));
    var fs := WithLast(es, w);
    LastWithin(es, bound);
    FlowIsListed(es, closed);
    FlowIsListed(fs, closed);
    FlowLast(es, closed);
    FlowLast(fs, closed);
    SameBefore(es, w, closed);
    if NumberEnd(es, closed) > 127 {
      OtherDigit(v, w);
    } else {
      OneDigitMore(v);
    }
  }

  lemma {:induction false} ListedSame(items: seq<string>, others: seq<string>, n: nat)
    requires n < |items| == |others| && items[..n] == others[..n]
    ensures Listed(items, n) == Listed(others, n)
    decreases n
  {
    if n > 0 {
      assert items[..n][n - 1] == others[..n][n - 1] && items[..n - 1] == items[..n][..n - 1];
      assert others[..n - 1] == others[..n][..n - 1];
      ListedSame(items, others, n - 1);
    }
  }

  lemma SameBefore(es: seq<Entry>, w: nat, closed: bool)
    requires es != []
    ensures Before(WithLast(es, w), closed) == Before(es, closed)
  {
    hide Item, Colon;
    var n, fs := |es| - 1, WithLast(es, w);
    assert Items(es, closed)[..n] == Items(fs, closed)[..n];
    ListedSame(Items(es, closed), Items(fs, closed), n);
  }

  lemma OtherDigit(v: nat, w: nat)
    requires w == if v % 10 == 0 then v + 1 else v - 1
    ensures |Decimal(v)| == |Decimal(w)| > 0 && Decimal(v)[..|Decimal(v)| - 1] == Decimal(w)[..|Decimal(w)| - 1]
  {
    hide Decimal;
    LastOfDecimal(v);
    LastOfDecimal(w);
    assert v / 10 == w / 10;
  }

  lemma OneDigitMore(v: nat)
    requires v > 0
    ensures Decimal(v * 10) == Decimal(v) + "0"
  {
    hide Digits;
    LastOfDecimal(v * 10);
    assert v * 10 / 10 == v && v * 10 % 10 == 0;
  }

  /** Told lists are exactly those that are not mistaken for another. */
  lemma ToldExactly(es: seq<Entry>, closed: bool, bound: nat)
    requires Named(es) && Within(es, bound) && bound % 10 != 1
    ensures Told(es, closed, bound) <==>
      forall fs :: Named(fs) && Within(fs, bound) && LooksAlike(es, fs, closed) ==> es == fs
  {
    hide Told, LooksAlike, OtherNumber;
    if Told(es, closed, bound) {
      forall fs | Named(fs) && Within(fs, bound) && LooksAlike(es, fs, closed) ensures es == fs {
        ToldTells(es, fs, closed, bound);
      }
    } else {
      ToldIfEmpty(es, closed, bound);
      NotTold(es, closed, bound);
      var fs := WithLast(es, OtherNumber(es[|es| - 1].number, NumberEnd(es, closed)));
      assert fs[|es| - 1].number != es[|es| - 1].number;
      assert Named(fs) && Within(fs, bound);
    }
  }

  lemma ToldIfEmpty(es: seq<Entry>, closed: bool, bound: nat)
    ensures es == [] ==> Told(es, closed, bound)
  {
  }

  // ---- short and long lists ----

  /** The numerals and names of the entries are of these lengths. */
  predicate Sized(es: seq<Entry>, low: nat, high: nat) {
    forall e <- es :: low <= |e.name| + |Decimal(e.number)| <= high
  }

  lemma {:induction false} ListedLength(es: seq<Entry>, closed: bool, low: nat, high: nat, n: nat)
    requires Sized(es, low, high) && n < |es|
    ensures var more := |Colon(closed)| + |Tail(closed)| + 3;
      (low + more) * n <= |Listed(Items(es, closed), n)| <= (high + more) * n
  {
    hide Decimal, Colon, Tail;
    if n > 0 {
      ListedLength(es, closed, low, high, n - 1);
      assert es[n - 1] in es;
      var more := |Colon(closed)| + |Tail(closed)| + 3;
      OneMore(low + more, n);
      OneMore(high + more, n);
    }
  }

  lemma OneMore(k: nat, n: nat)
    requires n > 0
    ensures k * n == k * (n - 1) + k
  {
  }

  /** Where the last number ends, from the sizes of the entries. */
  lemma NumberEnds(es: seq<Entry>, closed: bool, low: nat, high: nat)
    requires Sized(es, low, high) && es != []
    ensures var c, more := |Colon(closed)|, |Colon(closed)| + |Tail(closed)| + 3;
      (low + more) * (|es| - 1) + low + c <= NumberEnd(es, closed) <= (high + more) * (|es| - 1) + high + c
  {
    hide Decimal, Colon, Tail, Listed;
    ListedLength(es, closed, low, high, |es| - 1);
    assert es[|es| - 1] in es;
  }
}
