/**
 * Where the arrays of a decoded account update lie, and when they can be walked again later, through the addresses it
 * keeps and without the bounds they were first read under. The account lists always can. The key lists and the votes
 * are passed over by a 32-bit product, and lie inside the payload exactly if that product did not wrap around.
 */
module DecodedLists {
  import opened Numerals
  import opened Outcomes
  import opened Codec
  import opened CodecRoundTrip
  import CodecMachine
  import Varint

  // ---- every reader leaves the end of its window ----

  lemma LittleLeaves(w: seq<byte>, n: nat)
    ensures LittleIn(w, n).Some? ==> EndsIn(w, LittleIn(w, n).value.1)
  {
  }

  lemma BytesLeaves(w: seq<byte>, n: nat)
    ensures BytesIn(w, n).Some? ==> EndsIn(w, BytesIn(w, n).value.1) && |BytesIn(w, n).value.0| == n
  {
  }

  lemma VarintLeaves(w: seq<byte>, max: nat, bound: nat)
    ensures VarintIn(w, max, bound).Some? ==> EndsIn(w, VarintIn(w, max, bound).value.1)
  {
  }

  lemma BoolLeaves(w: seq<byte>)
    ensures BoolIn(w).Some? ==> EndsIn(w, BoolIn(w).value.1)
  {
  }

  lemma SkipLeaves(w: seq<byte>, n: nat, size: nat)
    ensures SkipIn(w, n, size).Some? ==> EndsIn(w, SkipIn(w, n, size).value.1)
  {
  }

  lemma AssetLeaves(w: seq<byte>)
    ensures AssetIn(w).Some? ==> EndsIn(w, AssetIn(w).value.1)
  {
    hide LittleIn, VarintIn, EndsIn;
    if AssetIn(w).Some? {
      LittleLeaves(w, 8);
      var w1 := LittleIn(w, 8).value.1;
      VarintLeaves(w1, 7, Varint.BOUND48);
      EndsInTrans(w, w1, AssetIn(w).value.1);
    }
  }

  lemma AccountAuthLeaves(w: seq<byte>)
    ensures AccountAuthIn(w).Some? ==> EndsIn(w, AccountAuthIn(w).value.1)
  {
    hide LittleIn, VarintIn, EndsIn;
    if AccountAuthIn(w).Some? {
      VarintLeaves(w, 7, Varint.BOUND48);
      var w1 := Varint48In(w).value.1;
      LittleLeaves(w1, 2);
      EndsInTrans(w, w1, AccountAuthIn(w).value.1);
    }
  }

  lemma {:induction false} SeekLeaves(w: seq<byte>, auth: AccountAuth, n: nat)
    ensures SeekIn(w, auth, n).Some? ==> EndsIn(w, SeekIn(w, auth, n).value.1)
    decreases n
  {
    hide AccountAuthIn;
    if n > 0 && SeekIn(w, auth, n).Some? {
      var next := AccountAuthIn(w).value;
      AccountAuthLeaves(w);
      SeekLeaves(next.1, next.0, n - 1);
      EndsInTrans(w, next.1, SeekIn(w, auth, n).value.1);
    }
  }

  // ---- more bytes behind the window change nothing ----

  lemma VarintMore(w: seq<byte>, more: seq<byte>, max: nat, bound: nat)
    requires VarintIn(w, max, bound).Some?
    ensures var r := VarintIn(w, max, bound).value; VarintIn(w + more, max, bound) == Some((r.0, r.1 + more))
  {
    var n := Varint.Group(w, max).value.1;
    assert (w + more)[..n] == w[..n] && (w + more)[n..] == w[n..] + more;
    hide Varint.Group;
    Varint.GroupLocal(w, w + more, max);
  }

  lemma LittleMore(w: seq<byte>, more: seq<byte>, n: nat)
    requires LittleIn(w, n).Some?
    ensures var r := LittleIn(w, n).value; LittleIn(w + more, n) == Some((r.0, r.1 + more))
  {
    hide Little;
    assert (w + more)[..n] == w[..n] && (w + more)[n..] == w[n..] + more;
  }

  lemma AccountAuthMore(w: seq<byte>, more: seq<byte>)
    requires AccountAuthIn(w).Some?
    ensures var r := AccountAuthIn(w).value; AccountAuthIn(w + more) == Some((r.0, r.1 + more))
  {
    hide VarintIn, LittleIn;
    VarintMore(w, more, 7, Varint.BOUND48);
    LittleMore(Varint48In(w).value.1, more, 2);
  }

  lemma {:induction false} SeekMore(w: seq<byte>, more: seq<byte>, auth: AccountAuth, n: nat)
    requires SeekIn(w, auth, n).Some?
    ensures var r := SeekIn(w, auth, n).value; SeekIn(w + more, auth, n) == Some((r.0, r.1 + more))
    decreases n
  {
    hide AccountAuthIn;
    if n > 0 {
      AccountAuthMore(w, more);
      var next := AccountAuthIn(w).value;
      SeekMore(next.1, more, next.0, n - 1);
    }
  }

  // ---- arrays that are passed over ----

  /** An array of n records begins inside the window, with room for as many bytes as were passed over. */
  predicate ArrayAt(w: seq<byte>, end: nat, first: int, n: nat, size: nat) {
    end - |w| <= first <= end && n * size % UINT32 <= end - first
  }

  /** The array lies inside the window exactly if its length did not wrap around. */
  lemma ArrayInside(w: seq<byte>, end: nat, first: int, n: nat, size: nat)
    requires ArrayAt(w, end, first, n, size) && |w| < UINT32
    ensures first + n * size <= end <==> n * size < UINT32
  {
    if n * size < UINT32 {
      DivModUnique(n * size, UINT32, 0, n * size);
    }
  }

  lemma SkipArray(w: seq<byte>, end: nat, tail: seq<byte>, n: nat, size: nat)
    requires EndsIn(w, tail) && SkipIn(tail, n, size).Some?
    ensures ArrayAt(w, end, end - |tail|, n, size)
  {
  }

  // ---- permissions ----

  /** The list of accounts begins inside the window, in a part of it that holds all of the list. */
  ghost predicate ListInside(w: seq<byte>, end: nat, p: Permission) {
    exists list :: ListAt(w, end, p, list)
  }

  ghost predicate ListAt(w: seq<byte>, end: nat, p: Permission, list: seq<byte>) {
    && EndsIn(w, list) && p.firstAccountAuth == end - |list| && SeekIn(list, NO_AUTH, p.numAccountAuths).Some?
    && ArrayAt(w, end, p.firstKeyAuth, p.numKeyAuths, KEY_AUTH_SIZE)
  }

  lemma ListInsideMore(w: seq<byte>, tail: seq<byte>, end: nat, p: Permission)
    requires EndsIn(w, tail) && ListInside(tail, end, p)
    ensures ListInside(w, end, p)
  {
    var list :| ListAt(tail, end, p, list);
    hide SeekIn;
    EndsInTrans(w, tail, list);
    assert ListAt(w, end, p, list);
  }

  lemma PermissionInside(w: seq<byte>, end: nat)
    requires PermissionIn(w, end).Some?
    ensures ListInside(w, end, PermissionIn(w, end).value.0) && EndsIn(w, PermissionIn(w, end).value.1)
  {
    hide LittleIn, VarintIn, SeekIn, SkipIn, EndsIn;
    var w1 := LittleIn(w, 4).value.1;
    var accounts := Varint32In(w1).value;
    var w3 := SeekIn(accounts.1, NO_AUTH, accounts.0).value.1;
    var keys := Varint32In(w3).value;
    var w5 := SkipIn(keys.1, keys.0, KEY_AUTH_SIZE).value.1;
    LittleLeaves(w, 4);
    VarintLeaves(w1, 5, Varint.BOUND32);
    EndsInTrans(w, w1, accounts.1);
    SeekLeaves(accounts.1, NO_AUTH, accounts.0);
    EndsInTrans(w, accounts.1, w3);
    VarintLeaves(w3, 5, Varint.BOUND32);
    EndsInTrans(w, w3, keys.1);
    SkipLeaves(keys.1, keys.0, KEY_AUTH_SIZE);
    EndsInTrans(w, keys.1, w5);
    VarintLeaves(w5, 5, Varint.BOUND32);
    EndsInTrans(w, w5, PermissionIn(w, end).value.1);
    SkipArray(w, end, keys.1, keys.0, KEY_AUTH_SIZE);
    assert ListAt(w, end, PermissionIn(w, end).value.0, accounts.1);
  }

  lemma ArrayMore(w: seq<byte>, tail: seq<byte>, end: nat, first: int, n: nat, size: nat)
    requires EndsIn(w, tail) && ArrayAt(tail, end, first, n, size)
    ensures ArrayAt(w, end, first, n, size)
  {
  }

  lemma EndsLength(w: seq<byte>, tail: seq<byte>)
    requires EndsIn(w, tail)
    ensures |tail| <= |w|
  {
  }

  lemma OptionalPermissionInside(w: seq<byte>, end: nat)
    requires OptionalPermissionIn(w, end).Some?
    ensures var p := OptionalPermissionIn(w, end).value;
      EndsIn(w, p.1) && (p.0.Some? ==> ListInside(w, end, p.0.value))
  {
    hide BoolIn, PermissionIn, EndsIn, ListInside;
    BoolLeaves(w);
    var w1 := BoolIn(w).value;
    if w1.0 {
      PermissionInside(w1.1, end);
      ListInsideMore(w, w1.1, end, PermissionIn(w1.1, end).value.0);
      EndsInTrans(w, w1.1, PermissionIn(w1.1, end).value.1);
    }
  }

  // ---- the whole operation ----

  /** The parts that come before the options. */
  lemma UpdateLeaves(w: seq<byte>, end: nat) returns (w4: seq<byte>)
    requires AccountUpdateIn(w, end).Some?
    ensures var u := AccountUpdateIn(w, end).value.0;
      && (u.ownerPermission.Some? ==> ListInside(w, end, u.ownerPermission.value))
      && (u.activePermission.Some? ==> ListInside(w, end, u.activePermission.value))
      && EndsIn(w, w4) && OptionalAccountOptionsIn(w4, end).Some?
      && u.accountOptions == OptionalAccountOptionsIn(w4, end).value.0
  {
    hide AssetIn, VarintIn, OptionalPermissionIn, OptionalAccountOptionsIn, ExtensionsIn, EndsIn, ListInside;
    var w1 := AssetIn(w).value.1;
    var w2 := Varint48In(w1).value.1;
    var owner := OptionalPermissionIn(w2, end).value;
    var active := OptionalPermissionIn(owner.1, end).value;
    AssetLeaves(w);
    VarintLeaves(w1, 7, Varint.BOUND48);
    EndsInTrans(w, w1, w2);
    OptionalPermissionInside(w2, end);
    EndsInTrans(w, w2, owner.1);
    OptionalPermissionInside(owner.1, end);
    EndsInTrans(w, owner.1, active.1);
    if owner.0.Some? {
      ListInsideMore(w, w2, end, owner.0.value);
    }
    if active.0.Some? {
      ListInsideMore(w, owner.1, end, active.0.value);
    }
    w4 := active.1;
  }

  lemma OptionsInside(w: seq<byte>, end: nat)
    requires AccountOptionsIn(w, end).Some?
    ensures var o := AccountOptionsIn(w, end).value.0;
      |o.memoPubkey| == KEY_SIZE && o.votingAccount < Varint.BOUND48 && ArrayAt(w, end, o.votes, o.numVotes, VOTE_SIZE)
  {
    hide BytesIn, LittleIn, VarintIn, SkipIn, ExtensionsIn, EndsIn, ArrayAt;
    var w1 := BytesIn(w, KEY_SIZE).value.1;
    var w2 := Varint48In(w1).value.1;
    BytesLeaves(w, KEY_SIZE);
    VarintLeaves(w1, 7, Varint.BOUND48);
    VarintBelow(w1, 7, Varint.BOUND48);
    EndsInTrans(w, w1, w2);
    var w4 := SizesLeave(w2);
    EndsInTrans(w, w2, w4);
    var w5 := Varint32In(w4).value.1;
    VarintLeaves(w4, 5, Varint.BOUND32);
    EndsInTrans(w, w4, w5);
    SkipArray(w, end, w5, Varint32In(w4).value.0, VOTE_SIZE);
  }

  lemma VarintBelow(w: seq<byte>, max: nat, bound: nat)
    ensures VarintIn(w, max, bound).Some? ==> VarintIn(w, max, bound).value.0 < bound
  {
  }

  /** What two numbers of two bytes leave. */
  lemma SizesLeave(w: seq<byte>) returns (rest: seq<byte>)
    requires LittleIn(w, 2).Some? && LittleIn(LittleIn(w, 2).value.1, 2).Some?
    ensures rest == LittleIn(LittleIn(w, 2).value.1, 2).value.1 && EndsIn(w, rest)
  {
    hide LittleIn, EndsIn;
    var w1 := LittleIn(w, 2).value.1;
    rest := LittleIn(w1, 2).value.1;
    LittleLeaves(w, 2);
    LittleLeaves(w1, 2);
    EndsInTrans(w, w1, rest);
  }

  /** Rescanning the list of accounts from its address reads every record again. */
  ghost predicate PermissionReadable(mem: Memory, p: Option<Permission>) {
    p.Some? ==>
      && p.value.firstAccountAuth >= 0 && p.value.firstKeyAuth >= 0
      && SeekIn(Window(mem, p.value.firstAccountAuth, WHOLE), NO_AUTH, p.value.numAccountAuths).Some?
  }

  ghost predicate OptionsReadable(o: Option<AccountOptions>) {
    o.Some? ==> |o.value.memoPubkey| == KEY_SIZE && o.value.votingAccount < Varint.BOUND48 && o.value.votes >= 0
  }

  lemma ListReadable(mem: Memory, at: nat, size: nat, p: Permission)
    requires size < UINT32 && ListInside(Window(mem, at, size), at + size, p)
    ensures PermissionReadable(mem, Some(p))
  {
    hide Window, SeekIn, EndsIn, Holds;
    var w, end := Window(mem, at, size), at + size;
    var list :| ListAt(w, end, p, list);
    CodecMachine.WindowLengths(mem);
    WholeHeld(mem, at, size);
    EndsLength(w, list);
    HoldsTail(mem, end, w, list);
    HoldsStart(mem, end, list, WHOLE);
    SeekMore(list, Window(mem, end, WHOLE - |list|), NO_AUTH, p.numAccountAuths);
  }

  lemma WholeHeld(mem: Memory, at: nat, size: nat)
    ensures Holds(mem, at + size, Window(mem, at, size))
  {
  }

  /** No length of a list has wrapped around. */
  predicate ListsUnwrapped(u: AccountUpdate) {
    KeysUnwrapped(u.ownerPermission) && KeysUnwrapped(u.activePermission) && VotesUnwrapped(u.accountOptions)
  }

  predicate KeysUnwrapped(p: Option<Permission>) {
    p.Some? ==> p.value.numKeyAuths * 35 < 0x1_0000_0000
  }

  predicate VotesUnwrapped(o: Option<AccountOptions>) {
    o.Some? ==> o.value.numVotes * 4 < 0x1_0000_0000
  }

  /** The whole lists lie between these addresses. */
  predicate ListsWithin(u: AccountUpdate, at: nat, end: nat) {
    && KeysWithin(u.ownerPermission, at, end) && KeysWithin(u.activePermission, at, end)
    && VotesWithin(u.accountOptions, at, end)
  }

  predicate KeysWithin(p: Option<Permission>, at: nat, end: nat) {
    p.Some? ==> at <= p.value.firstKeyAuth && p.value.firstKeyAuth + p.value.numKeyAuths * 35 <= end
  }

  predicate VotesWithin(o: Option<AccountOptions>, at: nat, end: nat) {
    o.Some? ==> at <= o.value.votes && o.value.votes + o.value.numVotes * 4 <= end
  }

  /** The part of the window in which a list of accounts was read. */
  ghost predicate AccountsWithin(mem: Memory, p: Option<Permission>, at: nat, end: nat) {
    p.Some? ==>
      && at <= p.value.firstAccountAuth <= end
      && SeekIn(Window(mem, p.value.firstAccountAuth, end - p.value.firstAccountAuth), NO_AUTH,
          p.value.numAccountAuths).Some?
  }

  lemma PermissionWithin(mem: Memory, at: nat, size: nat, p: Permission)
    requires size < UINT32 && ListInside(Window(mem, at, size), at + size, p)
    ensures AccountsWithin(mem, Some(p), at, at + size)
    ensures KeysWithin(Some(p), at, at + size) <==> KeysUnwrapped(Some(p))
  {
    hide Window, SeekIn, EndsIn, Holds, ArrayAt;
    var w, end := Window(mem, at, size), at + size;
    var list :| ListAt(w, end, p, list);
    CodecMachine.WindowLengths(mem);
    ArrayInside(w, end, p.firstKeyAuth, p.numKeyAuths, KEY_AUTH_SIZE);
    ArrayStart(w, end, p.firstKeyAuth, p.numKeyAuths, KEY_AUTH_SIZE);
    WholeHeld(mem, at, size);
    EndsLength(w, list);
    HoldsTail(mem, end, w, list);
    HeldWindow(mem, end, list);
  }

  lemma ArrayStart(w: seq<byte>, end: nat, first: int, n: nat, size: nat)
    requires ArrayAt(w, end, first, n, size)
    ensures end - |w| <= first
  {
  }

  lemma HeldWindow(mem: Memory, end: nat, s: seq<byte>)
    requires Holds(mem, end, s)
    ensures |s| <= end && Window(mem, end - |s|, |s|) == s
  {
  }

  /**
   * Where the lists of a decoded account update lie: a list of accounts always inside the payload, the keys and the
   * votes exactly if the 32-bit product by which they were passed over did not wrap around.
   */
  lemma ListsLieWithin(mem: Memory, at: nat, size: nat)
    requires size < UINT32 && AccountUpdateIn(Window(mem, at, size), at + size).Some?
    ensures var u := AccountUpdateIn(Window(mem, at, size), at + size).value.0;
      && AccountsWithin(mem, u.ownerPermission, at, at + size) && AccountsWithin(mem, u.activePermission, at, at + size)
      && (ListsWithin(u, at, at + size) <==> ListsUnwrapped(u))
  {
    hide Window, SeekIn, EndsIn, ListInside, AccountUpdateIn, AccountOptionsIn, BoolIn, ArrayAt, AccountsWithin,
         KeysWithin, KeysUnwrapped;
    var w, end := Window(mem, at, size), at + size;
    CodecMachine.WindowLengths(mem);
    var w4 := UpdateLeaves(w, end);
    var u := AccountUpdateIn(w, end).value.0;
    NoPermission(mem, at, end);
    if u.ownerPermission.Some? {
      PermissionWithin(mem, at, size, u.ownerPermission.value);
    }
    if u.activePermission.Some? {
      PermissionWithin(mem, at, size, u.activePermission.value);
    }
    if u.accountOptions.Some? {
      OptionsArray(w, w4, end);
      ArrayInside(w, end, u.accountOptions.value.votes, u.accountOptions.value.numVotes, VOTE_SIZE);
      ArrayStart(w, end, u.accountOptions.value.votes, u.accountOptions.value.numVotes, VOTE_SIZE);
    }
  }

  lemma NoPermission(mem: Memory, at: nat, end: nat)
    ensures AccountsWithin(mem, None, at, end) && KeysWithin(None, at, end) && KeysUnwrapped(None)
  {
  }

  lemma OptionsArray(w: seq<byte>, w4: seq<byte>, end: nat)
    requires EndsIn(w, w4) && OptionalAccountOptionsIn(w4, end).Some? && OptionalAccountOptionsIn(w4, end).value.0.Some?
    ensures var o := OptionalAccountOptionsIn(w4, end).value.0.value;
      |o.memoPubkey| == KEY_SIZE && o.votingAccount < Varint.BOUND48 && ArrayAt(w, end, o.votes, o.numVotes, VOTE_SIZE)
  {
    hide EndsIn, AccountOptionsIn, BoolIn, ArrayAt;
    BoolLeaves(w4);
    var w5 := BoolIn(w4).value.1;
    OptionsInside(w5, end);
    EndsInTrans(w, w4, w5);
    var o := AccountOptionsIn(w5, end).value.0;
    ArrayMore(w, w5, end, o.votes, o.numVotes, VOTE_SIZE);
  }

  /** Every account update that is decoded at all keeps addresses from which its accounts can be read again. */
  lemma AccountUpdateReadable(mem: Memory, at: nat, size: nat)
    requires size < UINT32 && AccountUpdateIn(Window(mem, at, size), at + size).Some?
    ensures var u := AccountUpdateIn(Window(mem, at, size), at + size).value.0;
      && PermissionReadable(mem, u.ownerPermission) && PermissionReadable(mem, u.activePermission)
      && OptionsReadable(u.accountOptions)
  {
    hide Window, SeekIn, EndsIn, ListInside, AccountUpdateIn, OptionalAccountOptionsIn, ArrayAt;
    var w, end := Window(mem, at, size), at + size;
    CodecMachine.WindowLengths(mem);
    var w4 := UpdateLeaves(w, end);
    var u := AccountUpdateIn(w, end).value.0;
    if u.ownerPermission.Some? {
      ListReadable(mem, at, size, u.ownerPermission.value);
    }
    if u.activePermission.Some? {
      ListReadable(mem, at, size, u.activePermission.value);
    }
    if u.accountOptions.Some? {
      OptionsArray(w, w4, end);
      ArrayStart(w, end, u.accountOptions.value.votes, u.accountOptions.value.numVotes, VOTE_SIZE);
    }
  }
}
