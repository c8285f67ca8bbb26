/** The three kinds of lists on the screen: accounts and keys with their weights, and votes. */
module ToldLists {
  import opened Numerals
  import opened CText
  import opened Codec
  import opened CodecRoundTrip
  import opened Lists
  import opened ParseOperations
  import opened CutLists
  import KeyText
  import Varint
  import Base58

  // ---- accounts ----

  function AccountEntry(a: AccountAuth): Entry {
    Entry("[1.2." + Decimal(a.accountId) + ", w", a.weight)
  }

  function AccountEntries(auths: seq<AccountAuth>): seq<Entry> {
    seq(|auths|, i requires 0 <= i < |auths| => AccountEntry(auths[i]))
  }

  predicate AccountsFit(auths: seq<AccountAuth>) {
    forall a <- auths :: AccountAuthFits(a)
  }

  /** The last weight of an account list can be read. */
  predicate AccountsTold(auths: seq<AccountAuth>) {
    Told(AccountEntries(auths), true, 0x1_0000)
  }

  lemma AccountItem(a: AccountAuth)
    ensures AccountAuthText(a) == Item(AccountEntry(a), true) && ':' !in AccountEntry(a).name
  {
    hide Decimal;
    DecimalBack(a.accountId);
  }

  lemma AccountOfEntry(a: AccountAuth, b: AccountAuth)
    requires AccountEntry(a) == AccountEntry(b)
    ensures a == b
  {
    hide Decimal;
    var s, t := Decimal(a.accountId), Decimal(b.accountId);
    Between("[1.2.", s, t, ", w");
    DecimalBack(a.accountId);
    DecimalBack(b.accountId);
  }

  lemma Between(a: string, x: string, y: string, b: string)
    requires a + x + b == a + y + b
    ensures x == y
  {
    assert |x| == |y|;
    assert x == (a + x + b)[|a|..|a| + |x|] == (a + y + b)[|a|..|a| + |y|] == y;
  }

  lemma AccountList(auths: seq<AccountAuth>)
    ensures AccountTexts(auths) == Items(AccountEntries(auths), true) && Named(AccountEntries(auths))
    ensures AccountsFit(auths) ==> Within(AccountEntries(auths), 0x1_0000)
  {
    hide AccountAuthText, AccountEntry, Item;
    forall i | 0 <= i < |auths|
      ensures AccountAuthText(auths[i]) == Item(AccountEntry(auths[i]), true) && ':' !in AccountEntry(auths[i]).name
      ensures AccountEntry(auths[i]).number == auths[i].weight && auths[i] in auths
    {
      AccountItem(auths[i]);
      AccountNumber(auths[i]);
    }
  }

  lemma AccountNumber(a: AccountAuth)
    ensures AccountEntry(a).number == a.weight
  {
  }

  lemma AccountsTell(xs: seq<AccountAuth>, ys: seq<AccountAuth>)
    requires AccountsFit(ys) && AccountsTold(xs) && |xs| == |ys|
    requires Line(Rendered(AccountTexts(xs))) == Line(Rendered(AccountTexts(ys)))
    ensures xs == ys
  {
    hide AccountEntry, AccountsFit, Rendered, Told, AccountTexts, Named, Within;
    AccountList(xs);
    AccountList(ys);
    ToldTells(AccountEntries(xs), AccountEntries(ys), true, 0x1_0000);
    forall i | 0 <= i < |xs| ensures xs[i] == ys[i] {
      assert AccountEntries(xs)[i] == AccountEntries(ys)[i];
      AccountOfEntry(xs[i], ys[i]);
    }
  }

  lemma AccountsNotTold(xs: seq<AccountAuth>) returns (ys: seq<AccountAuth>)
    requires AccountsFit(xs) && !AccountsTold(xs)
    ensures AccountsFit(ys) && |xs| == |ys| && xs != ys
    ensures Line(Rendered(AccountTexts(xs))) == Line(Rendered(AccountTexts(ys)))
  {
    hide Rendered, Told, AccountTexts, Named, Within, OtherNumber, Decimal;
    AccountList(xs);
    ToldIfEmpty(AccountEntries(xs), true, 0x1_0000);
    NotTold(AccountEntries(xs), true, 0x1_0000);
    var n := |xs| - 1;
    var w := OtherNumber(xs[n].weight, NumberEnd(AccountEntries(xs), true));
    ys := xs[n := xs[n].(weight := w)];
    assert xs[n] in xs;
    AccountList(ys);
    assert AccountEntries(ys) == WithLast(AccountEntries(xs), w);
  }

  // ---- keys ----

  function KeyEntry(a: KeyAuth, ripemd: KeyText.Ripemd160): Entry {
    Entry("[" + (if |a.pubkey| == 33 then KeyText.Text(a.pubkey, ripemd) else "") + ", w", a.weight)
  }

  function KeyEntries(auths: seq<KeyAuth>, ripemd: KeyText.Ripemd160): seq<Entry> {
    seq(|auths|, i requires 0 <= i < |auths| => KeyEntry(auths[i], ripemd))
  }

  predicate KeysFit(auths: seq<KeyAuth>) {
    forall a <- auths :: KeyAuthFits(a)
  }

  /** The last weight of a key list can be read. */
  predicate KeysTold(auths: seq<KeyAuth>, ripemd: KeyText.Ripemd160) {
    Told(KeyEntries(auths, ripemd), true, 0x1_0000)
  }

  lemma KeyItem(a: KeyAuth, ripemd: KeyText.Ripemd160)
    ensures KeyAuthText(a, ripemd) == Item(KeyEntry(a, ripemd), true) && ':' !in KeyEntry(a, ripemd).name
  {
    hide Decimal, KeyText.Text;
    if |a.pubkey| == 33 {
      KeyText.TextNoEnd(a.pubkey, ripemd);
    }
  }

  /** A key can be read back from its entry. */
  lemma KeyOfEntry(a: KeyAuth, b: KeyAuth, ripemd: KeyText.Ripemd160)
    requires KeyAuthFits(a) && KeyAuthFits(b) && KeyEntry(a, ripemd) == KeyEntry(b, ripemd)
    ensures a == b
  {
    hide KeyText.Text, Base58.Decode;
    Between("[", KeyText.Text(a.pubkey, ripemd), KeyText.Text(b.pubkey, ripemd), ", w");
    KeyText.TextDecodes(a.pubkey, ripemd);
    KeyText.TextDecodes(b.pubkey, ripemd);
  }

  lemma KeyList(auths: seq<KeyAuth>, ripemd: KeyText.Ripemd160)
    ensures KeyTexts(auths, ripemd) == Items(KeyEntries(auths, ripemd), true) && Named(KeyEntries(auths, ripemd))
    ensures KeysFit(auths) ==> Within(KeyEntries(auths, ripemd), 0x1_0000)
  {
    hide KeyAuthText, KeyEntry, Item;
    forall i | 0 <= i < |auths|
      ensures KeyAuthText(auths[i], ripemd) == Item(KeyEntry(auths[i], ripemd), true)
      ensures ':' !in KeyEntry(auths[i], ripemd).name
      ensures KeyEntry(auths[i], ripemd).number == auths[i].weight && auths[i] in auths
    {
      KeyItem(auths[i], ripemd);
      KeyNumber(auths[i], ripemd);
    }
  }

  lemma KeyNumber(a: KeyAuth, ripemd: KeyText.Ripemd160)
    ensures KeyEntry(a, ripemd).number == a.weight
  {
  }

  lemma KeysTell(xs: seq<KeyAuth>, ys: seq<KeyAuth>, ripemd: KeyText.Ripemd160)
    requires KeysFit(xs) && KeysFit(ys) && KeysTold(xs, ripemd) && |xs| == |ys|
    requires Line(Rendered(KeyTexts(xs, ripemd))) == Line(Rendered(KeyTexts(ys, ripemd)))
    ensures xs == ys
  {
    hide KeyEntry, KeyAuthFits, Rendered, Told, KeyTexts, Named, Within;
    KeyList(xs, ripemd);
    KeyList(ys, ripemd);
    ToldTells(KeyEntries(xs, ripemd), KeyEntries(ys, ripemd), true, 0x1_0000);
    forall i | 0 <= i < |xs| ensures xs[i] == ys[i] {
      assert KeyEntries(xs, ripemd)[i] == KeyEntries(ys, ripemd)[i];
      assert xs[i] in xs && ys[i] in ys;
      KeyOfEntry(xs[i], ys[i], ripemd);
    }
  }

  lemma KeysNotTold(xs: seq<KeyAuth>, ripemd: KeyText.Ripemd160) returns (ys: seq<KeyAuth>)
    requires KeysFit(xs) && !KeysTold(xs, ripemd)
    ensures KeysFit(ys) && |xs| == |ys| && xs != ys
    ensures Line(Rendered(KeyTexts(xs, ripemd))) == Line(Rendered(KeyTexts(ys, ripemd)))
  {
    hide Rendered, Told, KeyTexts, Named, Within, OtherNumber, KeyText.Text;
    KeyList(xs, ripemd);
    ToldIfEmpty(KeyEntries(xs, ripemd), true, 0x1_0000);
    NotTold(KeyEntries(xs, ripemd), true, 0x1_0000);
    var n := |xs| - 1;
    var w := OtherNumber(xs[n].weight, NumberEnd(KeyEntries(xs, ripemd), true));
    ys := xs[n := xs[n].(weight := w)];
    assert xs[n] in xs;
    KeyList(ys, ripemd);
    assert KeyEntries(ys, ripemd) == WithLast(KeyEntries(xs, ripemd), w);
  }

  // ---- votes ----

  function VoteEntry(vote: nat): Entry {
    Entry(Decimal(vote % 256), vote / 256)
  }

  function VoteEntries(votes: seq<nat>): seq<Entry> {
    seq(|votes|, i requires 0 <= i < |votes| => VoteEntry(votes[i]))
  }

  predicate VotesFit(votes: seq<nat>) {
    forall v <- votes :: v < UINT32
  }

  /** The last instance of a vote list can be read. */
  predicate VotesTold(votes: seq<nat>) {
    Told(VoteEntries(votes), false, 0x100_0000)
  }

  lemma VoteItem(vote: nat)
    ensures VoteText(vote) == Item(VoteEntry(vote), false) && ':' !in VoteEntry(vote).name
  {
    hide Decimal;
    DecimalBack(vote % 256);
  }

  lemma VoteOfEntry(a: nat, b: nat)
    requires VoteEntry(a) == VoteEntry(b)
    ensures a == b
  {
    hide Decimal;
    DecimalBack(a % 256);
    DecimalBack(b % 256);
  }

  lemma VoteList(votes: seq<nat>)
    ensures VoteTexts(votes) == Items(VoteEntries(votes), false) && Named(VoteEntries(votes))
    ensures VotesFit(votes) ==> Within(VoteEntries(votes), 0x100_0000)
  {
    hide VoteText, VoteEntry, Item;
    forall i | 0 <= i < |votes|
      ensures VoteText(votes[i]) == Item(VoteEntry(votes[i]), false) && ':' !in VoteEntry(votes[i]).name
      ensures votes[i] < UINT32 ==> VoteEntry(votes[i]).number < 0x100_0000
      ensures votes[i] in votes
    {
      VoteItem(votes[i]);
      VoteNumber(votes[i]);
    }
  }

  lemma VoteNumber(vote: nat)
    ensures VoteEntry(vote).number == vote / 256
  {
  }

  lemma VotesTell(xs: seq<nat>, ys: seq<nat>)
    requires VotesFit(ys) && VotesTold(xs) && |xs| == |ys|
    requires Line(Rendered(VoteTexts(xs))) == Line(Rendered(VoteTexts(ys)))
    ensures xs == ys
  {
    hide VoteEntry, VotesFit, Rendered, Told, VoteTexts, Named, Within;
    VoteList(xs);
    VoteList(ys);
    ToldTells(VoteEntries(xs), VoteEntries(ys), false, 0x100_0000);
    forall i | 0 <= i < |xs| ensures xs[i] == ys[i] {
      assert VoteEntries(xs)[i] == VoteEntries(ys)[i];
      VoteOfEntry(xs[i], ys[i]);
    }
  }

  /** The vote of the same type with another instance. */
  function VoteWith(vote: nat, instance: nat): nat {
    instance * 256 + vote % 256
  }

  lemma VoteEntryWith(vote: nat, instance: nat)
    ensures VoteEntry(VoteWith(vote, instance)) == VoteEntry(vote).(number := instance)
    ensures instance < 0x100_0000 ==> VoteWith(vote, instance) < UINT32
    ensures instance != vote / 256 ==> VoteWith(vote, instance) != vote
  {
    hide Decimal;
    DivModUnique(VoteWith(vote, instance), 256, instance, vote % 256);
  }

  lemma VoteReplaced(votes: seq<nat>, n: nat, vote: nat)
    requires VotesFit(votes) && n < |votes| && vote < UINT32
    ensures VotesFit(votes[n := vote])
  {
    var others := votes[n := vote];
    forall v <- others ensures v < UINT32 {
      assert v in votes || v == vote;
    }
  }

  lemma VotesNotTold(xs: seq<nat>) returns (ys: seq<nat>)
    requires VotesFit(xs) && !VotesTold(xs)
    ensures VotesFit(ys) && |xs| == |ys| && xs != ys
    ensures Line(Rendered(VoteTexts(xs))) == Line(Rendered(VoteTexts(ys)))
  {
    hide Rendered, Told, VoteTexts, Named, Within, OtherNumber, VoteEntry, VoteWith;
    VoteList(xs);
    ToldIfEmpty(VoteEntries(xs), false, 0x100_0000);
    NotTold(VoteEntries(xs), false, 0x100_0000);
    var n := |xs| - 1;
    VoteNumber(xs[n]);
    var w := OtherNumber(xs[n] / 256, NumberEnd(VoteEntries(xs), false));
    VoteEntryWith(xs[n], w);
    ys := xs[n := VoteWith(xs[n], w)];
    assert ys[n] != xs[n];
    VoteReplaced(xs, n, VoteWith(xs[n], w));
    VoteList(ys);
    assert VoteEntries(ys) == WithLast(VoteEntries(xs), w);
  }

  // ---- short and long lists ----

  lemma NumeralSizes()
    ensures forall v :: 0 <= v ==> |Decimal(v)| >= 1
    ensures forall v :: 0 <= v < 256 ==> |Decimal(v)| <= 3
    ensures forall v :: 0 <= v < 0x1_0000 ==> |Decimal(v)| <= 5
    ensures forall v :: 0 <= v < 0x100_0000 ==> |Decimal(v)| <= 8
    ensures forall v :: 0 <= v < Varint.BOUND48 ==> |Decimal(v)| <= 15
  {
    hide Decimal, Pow;
    TenToTheTwo();
    forall v | 0 <= v
      ensures |Decimal(v)| >= 1
      ensures v < 256 ==> |Decimal(v)| <= 3
      ensures v < 0x1_0000 ==> |Decimal(v)| <= 5
      ensures v < 0x100_0000 ==> |Decimal(v)| <= 8
      ensures v < Varint.BOUND48 ==> |Decimal(v)| <= 15
    {
      DecimalBack(v);
      DecimalLength(v, 3);
      DecimalLength(v, 5);
      DecimalLength(v, 8);
      DecimalLength(v, 15);
    }
  }

  lemma TenToTheTwo()
    ensures Pow(10, 3) == 1000 && Pow(10, 5) == 100000 && Pow(10, 8) == 100000000 && Pow(10, 15) == 1000000000000000
  {
    assert Pow(10, 3) == 10 * (10 * (10 * Pow(10, 0)));
    PowStep(10, 4);
    PowStep(10, 5);
    PowAdd(10, 3, 5);
    PowAdd(10, 5, 5);
    PowAdd(10, 10, 5);
  }

  /** Up to three accounts are told whatever they are, and nine or more never are. */
  lemma AccountsToldBySize(auths: seq<AccountAuth>)
    requires AccountsFit(auths)
    ensures |auths| <= 3 ==> AccountsTold(auths)
    ensures |auths| >= 9 ==> !AccountsTold(auths)
  {
    hide Decimal, NumberEnd;
    NumeralSizes();
    if auths != [] {
      var es := AccountEntries(auths);
      forall e <- es ensures 9 <= |e.name| + |Decimal(e.number)| <= 28 {
        var i :| 0 <= i < |auths| && e == AccountEntry(auths[i]);
        assert auths[i] in auths;
      }
      NumberEnds(es, true, 9, 28);
    }
  }

  /** A single key is told whatever it is. */
  lemma OneKeyTold(auths: seq<KeyAuth>, ripemd: KeyText.Ripemd160)
    requires KeysFit(auths) && |auths| <= 1
    ensures KeysTold(auths, ripemd)
  {
    hide Decimal, NumberEnd, KeyText.Text;
    NumeralSizes();
    if auths != [] {
      var es := KeyEntries(auths, ripemd);
      assert auths[0] in auths;
      KeyText.TextLength(auths[0].pubkey, ripemd);
      assert es == [KeyEntry(auths[0], ripemd)];
      NumberEnds(es, true, 0, 63);
    }
  }

  /** A vote of the same type with a neighbouring instance, in the same decade. */
  function Neighbour(vote: nat): nat {
    if vote / 256 % 10 == 0 then vote + 256 else vote - 256
  }

  /** Two lists of at least twenty-two votes that differ in the last one, and look alike. */
  lemma NeighbourLooksAlike(votes: seq<nat>)
    requires VotesFit(votes) && |votes| >= 22
    ensures var n := |votes| - 1;
      Line(Rendered(VoteTexts(votes))) == Line(Rendered(VoteTexts(votes[n := Neighbour(votes[n])])))
  {
    hide Rendered, VoteTexts, Named, Within, VoteEntry, VoteWith, Decimal, NumberEnd;
    var es, n := VoteEntries(votes), |votes| - 1;
    var others := votes[n := Neighbour(votes[n])];
    VoteList(votes);
    VoteList(others);
    VotesEnd(votes);
    NotTold(es, false, 0x100_0000);
    VoteNumber(votes[n]);
    NeighbourEntry(votes[n]);
    assert VoteEntries(others) == WithLast(es, OtherNumber(es[n].number, NumberEnd(es, false)));
  }

  lemma NeighbourEntry(vote: nat)
    ensures VoteEntry(Neighbour(vote))
         == VoteEntry(vote).(number := if vote / 256 % 10 == 0 then vote / 256 + 1 else vote / 256 - 1)
  {
    var w := if vote / 256 % 10 == 0 then vote / 256 + 1 else vote / 256 - 1;
    VoteEntryWith(vote, w);
    assert VoteWith(vote, w) == Neighbour(vote);
  }

  lemma VotesEnd(votes: seq<nat>)
    requires VotesFit(votes) && votes != []
    ensures 6 * (|votes| - 1) + 3 <= NumberEnd(VoteEntries(votes), false) <= 15 * (|votes| - 1) + 12
  {
    hide Decimal, NumberEnd;
    NumeralSizes();
    var es := VoteEntries(votes);
    forall e <- es ensures 2 <= |e.name| + |Decimal(e.number)| <= 11 {
      var i :| 0 <= i < |votes| && e == VoteEntry(votes[i]);
      assert votes[i] in votes;
    }
    NumberEnds(es, false, 2, 11);
  }

  /** Up to eight votes are told whatever they are, and twenty-two or more never are. */
  lemma VotesToldBySize(votes: seq<nat>)
    requires VotesFit(votes)
    ensures |votes| <= 8 ==> VotesTold(votes)
    ensures |votes| >= 22 ==> !VotesTold(votes)
  {
    hide Decimal, NumberEnd;
    if votes != [] {
      VotesEnd(votes);
    }
  }
}
