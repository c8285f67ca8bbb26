/**
 * What is shown of an operation is decided by its payload, as long as no list length has wrapped around. Where one
 * has, the list that is walked for the display goes on behind the payload, through whatever is there.
 */
module PayloadScreens {
  import opened Numerals
  import opened Outcomes
  import opened CText
  import opened Codec
  import opened CodecRoundTrip
  import opened Assets
  import opened Lists
  import opened DecodedLists
  import opened ParseOperations
  import CodecMachine
  import KeyText
  import Varint

  /** The two memories hold the same bytes at these addresses. */
  ghost predicate SameAt(mem: Memory, other: Memory, at: nat, end: nat) {
    forall a :: at <= a < end ==> mem(a) == other(a)
  }

  lemma SameWindow(mem: Memory, other: Memory, at: nat, end: nat, from: nat, size: nat)
    requires SameAt(mem, other, at, end) && at <= from && from + size <= end
    ensures Window(mem, from, size) == Window(other, from, size)
  {
  }

  // ---- accounts ----

  lemma {:induction false} RecordsMore(w: seq<byte>, more: seq<byte>, auth: AccountAuth, n: nat)
    requires SeekIn(w, auth, n).Some?
    ensures Records(w + more, n) == Records(w, n)
    decreases n
  {
    hide AccountAuthIn;
    if n > 0 {
      AccountAuthMore(w, more);
      var next := AccountAuthIn(w).value;
      RecordsMore(next.1, more, next.0, n - 1);
    }
  }

  /** Rescanning without bounds reads the records that lie in the window. */
  lemma AccountsAre(mem: Memory, first: nat, size: nat, n: nat)
    requires size <= WHOLE && SeekIn(Window(mem, first, size), NO_AUTH, n).Some?
    ensures AccountsOf(mem, first, n) == Records(Window(mem, first, size), n)
  {
    hide SeekIn, Records;
    var more := Window(mem, first + size, WHOLE - size);
    assert Window(mem, first, WHOLE) == Window(mem, first, size) + more;
    RecordsMore(Window(mem, first, size), more, NO_AUTH, n);
  }

  lemma SameAccounts(mem: Memory, other: Memory, at: nat, end: nat, p: Permission)
    requires SameAt(mem, other, at, end) && AccountsWithin(mem, Some(p), at, end) && end - at < UINT32
    ensures AccountsOf(mem, p.firstAccountAuth, p.numAccountAuths)
        == AccountsOf(other, p.firstAccountAuth, p.numAccountAuths)
  {
    hide SeekIn, Records, Window, SameAt, AccountsOf;
    var size := end - p.firstAccountAuth;
    SameWindow(mem, other, at, end, p.firstAccountAuth, size);
    AccountsAre(mem, p.firstAccountAuth, size, p.numAccountAuths);
    AccountsAre(other, p.firstAccountAuth, size, p.numAccountAuths);
  }

  // ---- keys and votes ----

  lemma StrideBelow(i: nat, n: nat, size: nat)
    requires i < n && n * size < UINT32
    ensures i * size + size <= n * size && i * size % UINT32 == i * size
  {
    MulMono(i + 1, n, size, size);
    DivModUnique(i * size, UINT32, 0, i * size);
  }

  lemma SameKeys(mem: Memory, other: Memory, at: nat, end: nat, first: nat, n: nat)
    requires SameAt(mem, other, at, end) && at <= first && first + n * KEY_AUTH_SIZE <= end
    requires n * KEY_AUTH_SIZE < UINT32
    ensures KeysOf(mem, first, n) == KeysOf(other, first, n)
  {
    hide Window, Little, SameAt;
    forall i | 0 <= i < n ensures KeysOf(mem, first, n)[i] == KeysOf(other, first, n)[i] {
      StrideBelow(i, n, KEY_AUTH_SIZE);
      var a := first + i * KEY_AUTH_SIZE;
      SameWindow(mem, other, at, end, a, KEY_SIZE);
      SameWindow(mem, other, at, end, a + KEY_SIZE, 2);
    }
  }

  lemma SameVotes(mem: Memory, other: Memory, at: nat, end: nat, first: nat, n: nat)
    requires SameAt(mem, other, at, end) && at <= first && first + n * VOTE_SIZE <= end && n * VOTE_SIZE < UINT32
    ensures VotesOf(mem, first, n) == VotesOf(other, first, n)
  {
    hide Window, Little, SameAt;
    forall i | 0 <= i < n ensures VotesOf(mem, first, n)[i] == VotesOf(other, first, n)[i] {
      StrideBelow(i, n, VOTE_SIZE);
      SameWindow(mem, other, at, end, first + i * VOTE_SIZE, VOTE_SIZE);
    }
  }

  // ---- what happens when a length has wrapped around ----

  /** Memory that differs in one byte. */
  function Changed(mem: Memory, at: nat): Memory {
    (a: nat) => if a == at then (if mem(a) == 0 then 1 else 0) else mem(a)
  }

  lemma ChangedOutside(mem: Memory, x: nat, at: nat, end: nat)
    requires !(at <= x < end)
    ensures SameAt(mem, Changed(mem, x), at, end)
  {
  }

  lemma {:induction false} LittleInjective(b: seq<byte>, c: seq<byte>)
    requires |b| == |c| && Little(b) == Little(c)
    ensures b == c
  {
    if b != [] {
      DivModUnique(Little(b), 256, Little(b[1..]), b[0]);
      DivModUnique(Little(c), 256, Little(c[1..]), c[0]);
      LittleInjective(b[1..], c[1..]);
      assert b == [b[0]] + b[1..] && c == [c[0]] + c[1..];
    }
  }

  /** The record of keys that the last of all 32-bit offsets falls into. */
  const LAST_KEY: nat := (UINT32 - 1) / KEY_AUTH_SIZE

  const LAST_VOTE: nat := (UINT32 - 1) / VOTE_SIZE

  lemma LeakedKeys(mem: Memory, first: nat, n: nat)
    requires n * KEY_AUTH_SIZE >= UINT32
    ensures KeysOf(mem, first, n) != KeysOf(Changed(mem, first + (UINT32 - 1)), first, n)
  {
    hide Little;
    var x := first + (UINT32 - 1);
    var other := Changed(mem, x);
    assert LAST_KEY * KEY_AUTH_SIZE == UINT32 - 11 && LAST_KEY < n;
    assert LAST_KEY * KEY_AUTH_SIZE % UINT32 == UINT32 - 11;
    var a := first + (UINT32 - 11);
    assert KeysOf(mem, first, n)[LAST_KEY] == KeyOf(mem, a) && KeysOf(other, first, n)[LAST_KEY] == KeyOf(other, a);
    assert KeyOf(mem, a).pubkey[10] == mem(x) && KeyOf(other, a).pubkey[10] == other(x);
  }

  lemma LeakedVotes(mem: Memory, first: nat, n: nat)
    requires n * VOTE_SIZE >= UINT32
    ensures VotesOf(mem, first, n) != VotesOf(Changed(mem, first + (UINT32 - 1)), first, n)
  {
    hide Little;
    var x := first + (UINT32 - 1);
    var other := Changed(mem, x);
    assert LAST_VOTE * VOTE_SIZE == UINT32 - 4 && LAST_VOTE < n;
    assert LAST_VOTE * VOTE_SIZE % UINT32 == UINT32 - 4;
    var a := first + (UINT32 - 4);
    var b, c := Window(mem, a, VOTE_SIZE), Window(other, a, VOTE_SIZE);
    assert b[3] == mem(x) && c[3] == other(x);
    if Little(b) == Little(c) {
      LittleInjective(b, c);
    }
    assert VotesOf(mem, first, n)[LAST_VOTE] == Little(b) && VotesOf(other, first, n)[LAST_VOTE] == Little(c);
  }

  /** Account options with 2^30 votes and none of them there. */
  const WRAPPED: seq<byte> := Zeros(KEY_SIZE) + [0, 0, 0, 0, 0, 0x80, 0x80, 0x80, 0x80, 4, 0]

  const WRAPPED_VOTES: nat := 0x4000_0000

  function WrappedOptions(at: nat): AccountOptions {
    AccountOptions(Zeros(KEY_SIZE), 0, 0, 0, WRAPPED_VOTES, at + 43, Extensions(0, None))
  }

  lemma WrappedCount()
    ensures Varint32In([0x80, 0x80, 0x80, 0x80, 4, 0]) == Some((WRAPPED_VOTES, [0]))
  {
    var w: seq<byte> := [0x80, 0x80, 0x80, 0x80, 4, 0];
    assert w[1..] == [0x80, 0x80, 0x80, 4, 0] && w[5..] == [0];
    assert w[1..][1..] == [0x80, 0x80, 4, 0] && w[1..][1..][1..] == [0x80, 4, 0] && w[1..][1..][1..][1..] == [4, 0];
    assert Varint.Group([4, 0], 1) == Some((4 as nat, 1 as nat));
    assert Varint.Group([0x80, 4, 0], 2) == Some((0x200 as nat, 2 as nat));
    assert Varint.Group([0x80, 0x80, 4, 0], 3) == Some((0x1_0000 as nat, 3 as nat));
  }

  lemma WrappedRead(at: nat)
    ensures |WRAPPED| == 44 && AccountOptionsIn(WRAPPED, at + 44) == Some((WrappedOptions(at), []))
  {
    hide VarintIn, LittleIn, BytesIn;
    WrappedBytes();
    ZeroVarint([0, 0, 0, 0, 0, 0x80, 0x80, 0x80, 0x80, 4, 0]);
    NoughtLittle([0, 0, 0, 0, 0x80, 0x80, 0x80, 0x80, 4, 0]);
    NoughtLittle([0, 0, 0x80, 0x80, 0x80, 0x80, 4, 0]);
    WrappedCount();
    ZeroVarint([0]);
  }

  lemma WrappedBytes()
    ensures |WRAPPED| == 44
    ensures BytesIn(WRAPPED, KEY_SIZE) == Some((Zeros(KEY_SIZE), [0, 0, 0, 0, 0, 0x80, 0x80, 0x80, 0x80, 4, 0]))
    ensures [0 as byte, 0, 0, 0, 0, 0x80, 0x80, 0x80, 0x80, 4, 0][1..] == [0, 0, 0, 0, 0x80, 0x80, 0x80, 0x80, 4, 0]
    ensures [0 as byte, 0, 0, 0, 0x80, 0x80, 0x80, 0x80, 4, 0][2..] == [0, 0, 0x80, 0x80, 0x80, 0x80, 4, 0]
    ensures [0 as byte, 0, 0x80, 0x80, 0x80, 0x80, 4, 0][2..] == [0x80, 0x80, 0x80, 0x80, 4, 0]
    ensures [0 as byte][1..] == []
  {
  }

  lemma ZeroVarint(w: seq<byte>)
    requires w != [] && w[0] == 0
    ensures Varint32In(w) == Varint48In(w) == Some((0, w[1..]))
  {
  }

  lemma NoughtLittle(w: seq<byte>)
    requires |w| >= 2 && w[0] == w[1] == 0
    ensures LittleIn(w, 2) == Some((0, w[2..]))
  {
    assert w[..2] == [0, 0] && [0 as byte, 0][1..] == [0] && Little([0]) == 0;
  }

  lemma {:induction false} ListedStarts(items: seq<string>, n: nat)
    requires 0 < n <= |items|
    ensures items[0] <= Listed(items, n)
  {
    if n > 1 {
      ListedStarts(items, n - 1);
    }
  }

  /** Lists whose first entries differ early on look different. */
  lemma LinesDiffer(xs: seq<string>, ys: seq<string>)
    requires xs != [] && ys != [] && |xs[0]| == |ys[0]| < VALUE_SIZE && xs[0] != ys[0]
    ensures Line(Rendered(xs)) != Line(Rendered(ys))
  {
    hide Listed;
    ListedStarts(xs, |xs|);
    ListedStarts(ys, |ys|);
    LineStarts(Rendered(xs), xs[0]);
    LineStarts(Rendered(ys), ys[0]);
  }

  lemma LineStarts(s: string, front: string)
    requires front <= s && |front| < VALUE_SIZE
    ensures front <= Line(s)
  {
  }

  /**
   * The payload does not always decide what is shown: these account options are decoded, although they announce 2^30
   * votes and hold none. Two memories that agree on all of them show different votes.
   */
  lemma WrappedVotesShown(at: nat, ripemd: KeyText.Ripemd160) returns (mem: Memory, other: Memory)
    ensures SameAt(mem, other, at, at + 44) && AccountOptionsIn(Window(mem, at, 44), at + 44).Some?
    ensures AccountOptionsIn(Window(other, at, 44), at + 44) == AccountOptionsIn(Window(mem, at, 44), at + 44)
    ensures var o := AccountOptionsIn(Window(mem, at, 44), at + 44).value.0;
      && o.numVotes == WRAPPED_VOTES && !VotesUnwrapped(Some(o))
      && OptionsScreen(mem, Some(o), 1, ripemd) != OptionsScreen(other, Some(o), 1, ripemd)
  {
    hide AccountOptionsIn, OptionsScreen, Window, SameAt, Changed;
    WrappedRead(at);
    mem := WrappedMemory(at);
    other := Changed(mem, at + 44);
    WrappedWindows(at);
    VotesDiffer(mem, other, at, ripemd);
  }

  /** These account options, and zeros behind them. */
  function WrappedMemory(at: nat): Memory {
    (a: nat) => if at <= a < at + 44 && |WRAPPED| == 44 then WRAPPED[a - at] else 0
  }

  lemma WrappedWindows(at: nat)
    ensures var mem, other := WrappedMemory(at), Changed(WrappedMemory(at), at + 44);
      && Window(mem, at, 44) == WRAPPED && Window(other, at, 44) == WRAPPED && SameAt(mem, other, at, at + 44)
      && mem(at + 43) == mem(at + 44) == mem(at + 45) == mem(at + 46) == 0
  {
    assert |WRAPPED| == 44;
  }

  lemma VotesDiffer(mem: Memory, other: Memory, at: nat, ripemd: KeyText.Ripemd160)
    requires mem(at + 43) == mem(at + 44) == mem(at + 45) == mem(at + 46) == 0 && other == Changed(mem, at + 44)
    ensures var o := Some(WrappedOptions(at)); OptionsScreen(mem, o, 1, ripemd) != OptionsScreen(other, o, 1, ripemd)
  {
    hide Rendered, Decimal, Cut, Little, Changed, VoteText, VotesOf;
    var n := WRAPPED_VOTES;
    FirstVotes(at, mem, other);
    LinesDiffer(VoteTexts(VotesOf(mem, at + 43, n)), VoteTexts(VotesOf(other, at + 43, n)));
  }

  lemma FirstVotes(at: nat, mem: Memory, other: Memory)
    requires mem(at + 43) == mem(at + 44) == mem(at + 45) == mem(at + 46) == 0 && other == Changed(mem, at + 44)
    ensures var xs, ys := VotesOf(mem, at + 43, WRAPPED_VOTES), VotesOf(other, at + 43, WRAPPED_VOTES);
      && |xs| == |ys| == WRAPPED_VOTES && |VoteText(xs[0])| == |VoteText(ys[0])| == 3
      && VoteText(xs[0]) != VoteText(ys[0])
  {
    hide Little, VoteText;
    assert Window(mem, at + 43, VOTE_SIZE) == [0, 0, 0, 0];
    assert Window(other, at + 43, VOTE_SIZE) == [0, 1, 0, 0];
    SmallVotes();
  }

  lemma SmallVotes()
    ensures Little([0, 0, 0, 0]) == 0 && Little([0, 1, 0, 0]) == 256
    ensures VoteText(0) == "0:0" && VoteText(256) == "0:1"
  {
    assert [0 as byte, 0, 0, 0][1..] == [0, 0, 0] && [0 as byte, 0, 0][1..] == [0, 0] && [0 as byte, 0][1..] == [0];
    assert [0 as byte, 1, 0, 0][1..] == [1, 0, 0] && [1 as byte, 0, 0][1..] == [0, 0];
    assert Little([0]) == 0 && Little([0, 0]) == 0 && Little([0, 0, 0]) == 0 && Little([1, 0, 0]) == 1;
  }

  /**
   * The keys walked by the printer, of which the value line shows a beginning, depend on nothing outside the payload
   * exactly if the length of their list has not wrapped around.
   */
  lemma KeysDecided(mem: Memory, at: nat, size: nat, p: Permission)
    requires size < UINT32 && ListInside(Window(mem, at, size), at + size, p)
    ensures p.firstKeyAuth >= 0
    ensures (forall other: Memory :: SameAt(mem, other, at, at + size) ==>
               KeysOf(other, p.firstKeyAuth, p.numKeyAuths) == KeysOf(mem, p.firstKeyAuth, p.numKeyAuths))
       <==> KeysUnwrapped(Some(p))
  {
    hide ListInside, KeysOf, AccountsWithin, SameAt;
    PermissionWithin(mem, at, size, p);
    KeysStart(mem, at, size, p);
    if KeysUnwrapped(Some(p)) {
      forall other: Memory | SameAt(mem, other, at, at + size)
        ensures KeysOf(other, p.firstKeyAuth, p.numKeyAuths) == KeysOf(mem, p.firstKeyAuth, p.numKeyAuths)
      {
        SameKeys(mem, other, at, at + size, p.firstKeyAuth, p.numKeyAuths);
      }
    } else {
      LeakedKeys(mem, p.firstKeyAuth, p.numKeyAuths);
      ChangedOutside(mem, p.firstKeyAuth + (UINT32 - 1), at, at + size);
    }
  }

  lemma KeysStart(mem: Memory, at: nat, size: nat, p: Permission)
    requires ListInside(Window(mem, at, size), at + size, p)
    ensures at <= p.firstKeyAuth
  {
    hide SeekIn, EndsIn;
    CodecMachine.WindowLengths(mem);
  }

  /** The same for the votes that are walked. */
  lemma VotesDecided(mem: Memory, at: nat, size: nat)
    requires size < UINT32 && AccountOptionsIn(Window(mem, at, size), at + size).Some?
    ensures var o := AccountOptionsIn(Window(mem, at, size), at + size).value.0;
      && o.votes >= 0
      && ((forall other: Memory :: SameAt(mem, other, at, at + size) ==>
            VotesOf(other, o.votes, o.numVotes) == VotesOf(mem, o.votes, o.numVotes))
         <==> VotesUnwrapped(Some(o)))
  {
    hide AccountOptionsIn, VotesOf, Window, ArrayAt, SameAt;
    CodecMachine.WindowLengths(mem);
    var w, end := Window(mem, at, size), at + size;
    OptionsInside(w, end);
    var o := AccountOptionsIn(w, end).value.0;
    ArrayInside(w, end, o.votes, o.numVotes, VOTE_SIZE);
    ArrayStart(w, end, o.votes, o.numVotes, VOTE_SIZE);
    if VotesUnwrapped(Some(o)) {
      forall other: Memory | SameAt(mem, other, at, end)
        ensures VotesOf(other, o.votes, o.numVotes) == VotesOf(mem, o.votes, o.numVotes)
      {
        SameVotes(mem, other, at, end, o.votes, o.numVotes);
      }
    } else {
      LeakedVotes(mem, o.votes, o.numVotes);
      ChangedOutside(mem, o.votes + (UINT32 - 1), at, end);
    }
  }

  // ---- the screens ----

  lemma PermissionScreenDecided(mem: Memory, other: Memory, at: nat, end: nat, who: string, p: Option<Permission>,
                                remain: nat, ripemd: KeyText.Ripemd160)
    requires SameAt(mem, other, at, end) && end - at < UINT32
    requires AccountsWithin(mem, p, at, end) && KeysWithin(p, at, end) && KeysUnwrapped(p)
    ensures PermissionScreen(mem, who, p, remain, ripemd) == PermissionScreen(other, who, p, remain, ripemd)
  {
    hide SameAt, AccountsOf, KeysOf, Rendered, AccountTexts, KeyTexts, Decimal, Cut, Window, SeekIn;
    if p.Some? {
      SameAccounts(mem, other, at, end, p.value);
      SameKeys(mem, other, at, end, p.value.firstKeyAuth, p.value.numKeyAuths);
    }
  }

  lemma OptionsScreenDecided(mem: Memory, other: Memory, at: nat, end: nat, o: Option<AccountOptions>, remain: nat,
                             ripemd: KeyText.Ripemd160)
    requires SameAt(mem, other, at, end) && VotesWithin(o, at, end) && VotesUnwrapped(o)
    ensures OptionsScreen(mem, o, remain, ripemd) == OptionsScreen(other, o, remain, ripemd)
  {
    hide SameAt, VotesOf, Rendered, VoteTexts, Decimal, Cut, AccountIdText, KeyText.Text;
    if o.Some? {
      SameVotes(mem, other, at, end, o.value.votes, o.value.numVotes);
    }
  }

  /** Every screen of an account update is decided by its payload, if none of its lists has wrapped around. */
  lemma UpdateDecided(mem: Memory, other: Memory, at: nat, size: nat, arg: nat, remain: nat, ripemd: KeyText.Ripemd160)
    requires size < UINT32 && AccountUpdateIn(Window(mem, at, size), at + size).Some?
    requires SameAt(mem, other, at, at + size)
    requires ListsUnwrapped(AccountUpdateIn(Window(mem, at, size), at + size).value.0)
    ensures var u := AccountUpdateIn(Window(mem, at, size), at + size).value.0;
      AccountUpdateScreen(mem, u, arg, remain, ripemd) == AccountUpdateScreen(other, u, arg, remain, ripemd)
  {
    hide SameAt, Window, AccountUpdateIn, PermissionScreen, OptionsScreen, AccountsWithin, KeysWithin, KeysUnwrapped,
         VotesWithin, VotesUnwrapped, AssetText, AccountIdText;
    ListsLieWithin(mem, at, size);
    var u := AccountUpdateIn(Window(mem, at, size), at + size).value.0;
    if arg == 1 {
      PermissionScreenDecided(mem, other, at, at + size, "Owner", u.ownerPermission, remain, ripemd);
    } else if arg == 2 {
      PermissionScreenDecided(mem, other, at, at + size, "Active", u.activePermission, remain, ripemd);
    } else if arg == 3 {
      OptionsScreenDecided(mem, other, at, at + size, u.accountOptions, remain, ripemd);
    }
  }
}
