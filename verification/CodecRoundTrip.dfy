/** Decoding undoes encoding, and the kept addresses lead back to every element of the arrays. */
module CodecRoundTrip {
  import opened Numerals
  import opened Outcomes
  import opened Codec
  import Varint

  // ---- encoders: each writes its value in front of what follows ----

  function PutLittle(v: nat, size: nat, rest: seq<byte>): seq<byte> {
    if size == 0 then rest else [v % 256] + PutLittle(v / 256, size - 1, rest)
  }

  function PutVarint(v: nat, rest: seq<byte>): seq<byte> {
    Varint.Pack(v) + rest
  }

  function PutBool(b: bool, rest: seq<byte>): seq<byte> {
    [if b then 1 else 0] + rest
  }

  function PutAsset(a: Asset, rest: seq<byte>): seq<byte> {
    PutLittle(a.amount, 8, PutVarint(a.instanceId, rest))
  }

  function PutAccountAuth(a: AccountAuth, rest: seq<byte>): seq<byte> {
    PutVarint(a.accountId, PutLittle(a.weight, 2, rest))
  }

  function PutAccountAuths(auths: seq<AccountAuth>, rest: seq<byte>): seq<byte> {
    if auths == [] then rest else PutAccountAuth(auths[0], PutAccountAuths(auths[1..], rest))
  }

  function PutKeyAuth(a: KeyAuth, rest: seq<byte>): seq<byte> {
    a.pubkey + PutLittle(a.weight, 2, rest)
  }

  function PutKeyAuths(auths: seq<KeyAuth>, rest: seq<byte>): seq<byte> {
    if auths == [] then rest else PutKeyAuth(auths[0], PutKeyAuths(auths[1..], rest))
  }

  function PutVotes(votes: seq<nat>, rest: seq<byte>): seq<byte> {
    if votes == [] then rest else PutLittle(votes[0], 4, PutVotes(votes[1..], rest))
  }

  datatype PermissionValue = PermissionValue(weightThreshold: nat, accounts: seq<AccountAuth>, keys: seq<KeyAuth>)

  function PutPermission(p: PermissionValue, rest: seq<byte>): seq<byte> {
    PutLittle(p.weightThreshold, 4, PutVarint(|p.accounts|, PutAccountAuths(p.accounts, PutKeysOf(p, rest))))
  }

  /** The second half of a permission: its key list and the empty list of addresses. */
  function PutKeysOf(p: PermissionValue, rest: seq<byte>): seq<byte> {
    PutVarint(|p.keys|, PutKeyAuths(p.keys, PutVarint(0, rest)))
  }

  /** Extensions as the reader meets them: a count, and bytes it does not interpret. */
  datatype ExtensionsValue = ExtensionsValue(count: nat, data: seq<byte>)

  function PutExtensions(e: ExtensionsValue, rest: seq<byte>): seq<byte> {
    PutVarint(e.count, e.data + rest)
  }

  datatype OptionsValue = OptionsValue(
    memoPubkey: seq<byte>, votingAccount: nat, numWitnesses: nat, numCommittee: nat, votes: seq<nat>,
    extensions: ExtensionsValue)

  function PutOptions(o: OptionsValue, rest: seq<byte>): seq<byte> {
    o.memoPubkey + PutVarint(o.votingAccount,
        PutLittle(o.numWitnesses, 2, PutLittle(o.numCommittee, 2, PutVotesOf(o, rest))))
  }

  function PutVotesOf(o: OptionsValue, rest: seq<byte>): seq<byte> {
    PutVarint(|o.votes|, PutVotes(o.votes, PutExtensions(o.extensions, rest)))
  }

  datatype MemoValue = MemoValue(fromPubkey: seq<byte>, toPubkey: seq<byte>, nonce: nat, cipherText: seq<byte>)

  function PutMemo(m: MemoValue, rest: seq<byte>): seq<byte> {
    m.fromPubkey + (m.toPubkey + PutLittle(m.nonce, 8, PutVarint(|m.cipherText|, m.cipherText + rest)))
  }

  // ---- reading the parts back ----

  lemma {:induction false} LittleLength(v: nat, size: nat, rest: seq<byte>)
    ensures |PutLittle(v, size, rest)| == size + |rest| && PutLittle(v, size, rest)[size..] == rest
  {
    if size > 0 {
      LittleLength(v / 256, size - 1, rest);
    }
  }

  lemma {:induction false} LittleValue(v: nat, size: nat, rest: seq<byte>)
    requires v < Pow(256, size)
    ensures |PutLittle(v, size, rest)| >= size && Little(PutLittle(v, size, rest)[..size]) == v
  {
    LittleLength(v, size, rest);
    if size > 0 {
      var w := PutLittle(v, size, rest);
      LittleValue(v / 256, size - 1, rest);
      assert w[1..] == PutLittle(v / 256, size - 1, rest);
      assert w[..size][1..] == w[1..][..size - 1];
    }
  }

  /** A fixed-size little-endian field is read back. */
  lemma LittleBack(v: nat, size: nat, rest: seq<byte>)
    requires v < Pow(256, size)
    ensures LittleIn(PutLittle(v, size, rest), size) == Some((v, rest))
  {
    LittleLength(v, size, rest);
    LittleValue(v, size, rest);
  }

  lemma Little16Back(v: nat, rest: seq<byte>)
    requires v < 0x1_0000
    ensures LittleIn(PutLittle(v, 2, rest), 2) == Some((v, rest))
  {
    Widths();
    LittleBack(v, 2, rest);
  }

  lemma Little32Back(v: nat, rest: seq<byte>)
    requires v < UINT32
    ensures LittleIn(PutLittle(v, 4, rest), 4) == Some((v, rest))
  {
    Widths();
    LittleBack(v, 4, rest);
  }

  lemma Little64Back(v: nat, rest: seq<byte>)
    requires v < 0x1_0000_0000_0000_0000
    ensures LittleIn(PutLittle(v, 8, rest), 8) == Some((v, rest))
  {
    Widths();
    LittleBack(v, 8, rest);
  }

  lemma Widths()
    ensures Pow(256, 2) == 0x1_0000 && Pow(256, 4) == UINT32 && Pow(256, 8) == 0x1_0000_0000_0000_0000
  {
    assert Pow(256, 1) == 256;
    PowAdd(256, 1, 1);
    PowAdd(256, 2, 2);
    PowAdd(256, 4, 4);
  }

  lemma Varint32Back(v: nat, rest: seq<byte>)
    requires v < 0x1_0000_0000
    ensures Varint32In(PutVarint(v, rest)) == Some((v, rest))
  {
    Varint.RoundTrip32(v, rest);
    assert PutVarint(v, rest)[|Varint.Pack(v)|..] == rest;
  }

  lemma Varint48Back(v: nat, rest: seq<byte>)
    requires v < 0x1_0000_0000_0000
    ensures Varint48In(PutVarint(v, rest)) == Some((v, rest))
  {
    Varint.RoundTrip48(v, rest);
    assert PutVarint(v, rest)[|Varint.Pack(v)|..] == rest;
  }

  lemma BytesBack(b: seq<byte>, rest: seq<byte>)
    ensures BytesIn(b + rest, |b|) == Some((b, rest))
  {
    assert (b + rest)[..|b|] == b && (b + rest)[|b|..] == rest;
  }

  predicate AssetFits(a: Asset) {
    a.amount < 0x1_0000_0000_0000_0000 && a.instanceId < 0x1_0000_0000_0000
  }

  lemma AssetBack(a: Asset, rest: seq<byte>)
    requires AssetFits(a)
    ensures AssetIn(PutAsset(a, rest)) == Some((a, rest))
  {
    Little64Back(a.amount, PutVarint(a.instanceId, rest));
    Varint48Back(a.instanceId, rest);
    hide LittleIn, PutLittle, Varint48In, PutVarint;
  }

  predicate AccountAuthFits(a: AccountAuth) {
    a.accountId < 0x1_0000_0000_0000 && a.weight < 0x1_0000
  }

  lemma AccountAuthBack(a: AccountAuth, rest: seq<byte>)
    requires AccountAuthFits(a)
    ensures AccountAuthIn(PutAccountAuth(a, rest)) == Some((a, rest))
  {
    Varint48Back(a.accountId, PutLittle(a.weight, 2, rest));
    Little16Back(a.weight, rest);
    hide LittleIn, PutLittle, Varint48In, PutVarint;
  }

  /** Seeking k records reads the last of them, whatever was in the result before. */
  lemma {:induction false} SeekBack(auths: seq<AccountAuth>, k: nat, rest: seq<byte>, auth: AccountAuth)
    requires k <= |auths| && forall a <- auths :: AccountAuthFits(a)
    ensures SeekIn(PutAccountAuths(auths, rest), auth, k)
         == Some((if k == 0 then auth else auths[k - 1], PutAccountAuths(auths[k..], rest)))
  {
    hide AccountAuthIn, PutAccountAuth, AccountAuthFits;
    if k == 0 {
      assert auths[0..] == auths;
    } else {
      AccountAuthBack(auths[0], PutAccountAuths(auths[1..], rest));
      SeekBack(auths[1..], k - 1, rest, auths[0]);
      assert auths[1..][k - 1..] == auths[k..];
    }
  }

  predicate KeyAuthFits(a: KeyAuth) {
    |a.pubkey| == 33 && a.weight < 0x1_0000
  }

  lemma KeyAuthBack(a: KeyAuth, rest: seq<byte>)
    requires KeyAuthFits(a)
    ensures KeyAuthIn(PutKeyAuth(a, rest)) == Some((a, rest))
    ensures |PutKeyAuth(a, rest)| == KEY_AUTH_SIZE + |rest| && PutKeyAuth(a, rest)[KEY_AUTH_SIZE..] == rest
  {
    BytesBack(a.pubkey, PutLittle(a.weight, 2, rest));
    Little16Back(a.weight, rest);
    LittleLength(a.weight, 2, rest);
    var w := PutLittle(a.weight, 2, rest);
    hide LittleIn, PutLittle, BytesIn;
    assert PutKeyAuth(a, rest)[KEY_AUTH_SIZE..] == w[2..];
  }

  lemma DropDrop(w: seq<byte>, a: nat, b: nat)
    requires a + b <= |w|
    ensures w[a..][b..] == w[a + b..]
  {
  }

  lemma OneStride(w: seq<byte>, next: seq<byte>, size: nat, k: nat)
    requires k > 0 && size * k <= |w| && size <= |w| && w[size..] == next
    ensures size * (k - 1) <= |next| && next[size * (k - 1)..] == w[size * k..]
  {
    assert size * k == size + size * (k - 1);
    DropDrop(w, size, size * (k - 1));
  }

  lemma KeysStep(auths: seq<KeyAuth>, rest: seq<byte>)
    requires auths != [] && KeyAuthFits(auths[0])
    ensures var w, next := PutKeyAuths(auths, rest), PutKeyAuths(auths[1..], rest);
      |w| == KEY_AUTH_SIZE + |next| && w[KEY_AUTH_SIZE..] == next
  {
    hide PutKeyAuth;
    KeyAuthBack(auths[0], PutKeyAuths(auths[1..], rest));
  }

  lemma {:induction false} KeysLength(auths: seq<KeyAuth>, rest: seq<byte>)
    requires forall a <- auths :: KeyAuthFits(a)
    ensures |PutKeyAuths(auths, rest)| == KEY_AUTH_SIZE * |auths| + |rest|
  {
    if auths != [] {
      KeysStep(auths, rest);
      KeysLength(auths[1..], rest);
    }
  }

  /** Every 35 bytes the next key begins. */
  lemma {:induction false} KeysStride(auths: seq<KeyAuth>, k: nat, rest: seq<byte>)
    requires k <= |auths| && forall a <- auths :: KeyAuthFits(a)
    ensures var w := PutKeyAuths(auths, rest);
      |w| == KEY_AUTH_SIZE * |auths| + |rest| && w[KEY_AUTH_SIZE * k..] == PutKeyAuths(auths[k..], rest)
    decreases k
  {
    hide PutKeyAuths, KeyAuthFits;
    KeysLength(auths, rest);
    if k == 0 {
      assert auths[0..] == auths;
    } else {
      KeysStep(auths, rest);
      KeysStride(auths[1..], k - 1, rest);
      OneStride(PutKeyAuths(auths, rest), PutKeyAuths(auths[1..], rest), KEY_AUTH_SIZE, k);
      assert auths[1..][k - 1..] == auths[k..];
    }
  }

  lemma VotesStep(votes: seq<nat>, rest: seq<byte>)
    requires votes != []
    ensures var w, next := PutVotes(votes, rest), PutVotes(votes[1..], rest);
      |w| == VOTE_SIZE + |next| && w[VOTE_SIZE..] == next
  {
    hide PutLittle;
    LittleLength(votes[0], 4, PutVotes(votes[1..], rest));
  }

  lemma {:induction false} VotesLength(votes: seq<nat>, rest: seq<byte>)
    ensures |PutVotes(votes, rest)| == VOTE_SIZE * |votes| + |rest|
  {
    if votes != [] {
      VotesStep(votes, rest);
      VotesLength(votes[1..], rest);
    }
  }

  /** Every four bytes the next vote begins. */
  lemma {:induction false} VotesStride(votes: seq<nat>, k: nat, rest: seq<byte>)
    requires k <= |votes|
    ensures var w := PutVotes(votes, rest);
      |w| == VOTE_SIZE * |votes| + |rest| && w[VOTE_SIZE * k..] == PutVotes(votes[k..], rest)
    decreases k
  {
    hide PutVotes;
    VotesLength(votes, rest);
    if k == 0 {
      assert votes[0..] == votes;
    } else {
      VotesStep(votes, rest);
      VotesStride(votes[1..], k - 1, rest);
      OneStride(PutVotes(votes, rest), PutVotes(votes[1..], rest), VOTE_SIZE, k);
      assert votes[1..][k - 1..] == votes[k..];
    }
  }

  // ---- what follows the encoder's output ----

  /** `rest` is what w ends in. */
  predicate EndsIn(w: seq<byte>, rest: seq<byte>) {
    |rest| <= |w| && w[|w| - |rest|..] == rest
  }

  lemma EndsInTrans(a: seq<byte>, b: seq<byte>, c: seq<byte>)
    requires EndsIn(a, b) && EndsIn(b, c)
    ensures EndsIn(a, c)
  {
    assert a[|a| - |b|..][|b| - |c|..] == a[|a| - |c|..];
  }

  lemma LittleEnds(v: nat, size: nat, rest: seq<byte>)
    ensures EndsIn(PutLittle(v, size, rest), rest)
  {
    LittleLength(v, size, rest);
  }

  lemma JoinEnds(a: seq<byte>, rest: seq<byte>)
    ensures EndsIn(a + rest, rest)
  {
  }

  lemma AccountAuthEnds(a: AccountAuth, rest: seq<byte>)
    ensures EndsIn(PutAccountAuth(a, rest), rest) && |PutAccountAuth(a, rest)| > |rest|
  {
    LittleEnds(a.weight, 2, rest);
    JoinEnds(Varint.Pack(a.accountId), PutLittle(a.weight, 2, rest));
    EndsInTrans(PutAccountAuth(a, rest), PutLittle(a.weight, 2, rest), rest);
  }

  lemma {:induction false} AccountAuthsEnd(auths: seq<AccountAuth>, rest: seq<byte>)
    ensures EndsIn(PutAccountAuths(auths, rest), rest) && |PutAccountAuths(auths, rest)| >= |auths| + |rest|
  {
    if auths != [] {
      AccountAuthsEnd(auths[1..], rest);
      AccountAuthEnds(auths[0], PutAccountAuths(auths[1..], rest));
      EndsInTrans(PutAccountAuths(auths, rest), PutAccountAuths(auths[1..], rest), rest);
      hide PutAccountAuth, EndsIn;
    }
  }

  lemma {:induction false} LittleAppend(v: nat, size: nat, rest: seq<byte>, more: seq<byte>)
    ensures PutLittle(v, size, rest) + more == PutLittle(v, size, rest + more)
  {
    if size > 0 {
      LittleAppend(v / 256, size - 1, rest, more);
      assert PutLittle(v, size, rest) + more == [v % 256] + (PutLittle(v / 256, size - 1, rest) + more);
    }
  }

  lemma AccountAuthAppend(a: AccountAuth, rest: seq<byte>, more: seq<byte>)
    ensures PutAccountAuth(a, rest) + more == PutAccountAuth(a, rest + more)
  {
    LittleAppend(a.weight, 2, rest, more);
    var id, w := Varint.Pack(a.accountId), PutLittle(a.weight, 2, rest);
    assert id + w + more == id + (w + more);
    hide PutLittle;
  }

  lemma {:induction false} AccountAuthsAppend(auths: seq<AccountAuth>, rest: seq<byte>, more: seq<byte>)
    ensures PutAccountAuths(auths, rest) + more == PutAccountAuths(auths, rest + more)
  {
    if auths != [] {
      AccountAuthsAppend(auths[1..], rest, more);
      AccountAuthAppend(auths[0], PutAccountAuths(auths[1..], rest), more);
      hide PutAccountAuth;
    }
  }

  lemma KeyAuthAppend(a: KeyAuth, rest: seq<byte>, more: seq<byte>)
    ensures PutKeyAuth(a, rest) + more == PutKeyAuth(a, rest + more)
  {
    LittleAppend(a.weight, 2, rest, more);
    var w := PutLittle(a.weight, 2, rest);
    assert a.pubkey + w + more == a.pubkey + (w + more);
    hide PutLittle;
  }

  // ---- rescanning the arrays ----

  /** A rescan is given a window of -1 bytes. */
  const WHOLE: nat := UINT32 - 1

  /** The bytes in front of address `end` are s. */
  ghost predicate Holds(mem: Memory, end: nat, s: seq<byte>) {
    |s| <= end && Window(mem, end - |s|, |s|) == s
  }

  lemma HoldsTail(mem: Memory, end: nat, w: seq<byte>, rest: seq<byte>)
    requires Holds(mem, end, w) && EndsIn(w, rest)
    ensures Holds(mem, end, rest)
  {
    assert Window(mem, end - |rest|, |rest|) == Window(mem, end - |w|, |w|)[|w| - |rest|..];
  }

  /** A window that is too long starts with what is held there. */
  lemma HoldsStart(mem: Memory, end: nat, s: seq<byte>, size: nat)
    requires Holds(mem, end, s) && |s| <= size
    ensures Window(mem, end - |s|, size) == s + Window(mem, end, size - |s|)
  {
    assert Window(mem, end - |s|, size)[..|s|] == Window(mem, end - |s|, |s|);
  }

  predicate Yields<T(==)>(r: Reading<T>, v: T) {
    r.Some? && r.value.0 == v
  }

  /** A rescan of `count` records ends on a, whatever the result held before. */
  ghost predicate AccountAt(mem: Memory, first: int, count: nat, a: AccountAuth) {
    0 <= first && forall before :: Yields(SeekIn(Window(mem, first, WHOLE), before, count), a)
  }

  ghost predicate KeyAt(mem: Memory, first: int, i: nat, a: KeyAuth) {
    0 <= first && Yields(KeyAuthIn(Window(mem, first + i * KEY_AUTH_SIZE, WHOLE)), a)
  }

  ghost predicate VoteAt(mem: Memory, first: int, i: nat, v: nat) {
    0 <= first && Yields(LittleIn(Window(mem, first + i * VOTE_SIZE, WHOLE), 4), v)
  }

  /** Rescanning i+1 records ends on element i. */
  lemma AccountReached(mem: Memory, end: nat, auths: seq<AccountAuth>, rest: seq<byte>, i: nat)
    requires i < |auths| && forall a <- auths :: AccountAuthFits(a)
    requires var w := PutAccountAuths(auths, rest); Holds(mem, end, w) && |w| < UINT32
    ensures AccountAt(mem, end - |PutAccountAuths(auths, rest)|, i + 1, auths[i])
  {
    var w := PutAccountAuths(auths, rest);
    HoldsStart(mem, end, w, WHOLE);
    var more := Window(mem, end, WHOLE - |w|);
    AccountAuthsAppend(auths, rest, more);
    var count := i + 1;
    var whole := Window(mem, end - |w|, WHOLE);
    forall before ensures Yields(SeekIn(whole, before, count), auths[i]) {
      SeekBack(auths, count, rest + more, before);
    }
    hide PutAccountAuths, SeekIn, Holds, Window;
  }

  /** An array held in front of `end` is held from its record i on, `stride` bytes each. */
  lemma HeldFrom(mem: Memory, end: nat, w: seq<byte>, tail: seq<byte>, skip: nat)
    requires Holds(mem, end, w) && skip <= |w| < UINT32 && w[skip..] == tail
    ensures |tail| == |w| - skip && Window(mem, end - |w| + skip, WHOLE) == tail + Window(mem, end, WHOLE - |tail|)
  {
    hide Window, Holds;
    HoldsTail(mem, end, w, tail);
    HoldsStart(mem, end, tail, WHOLE);
    HoldsLength(mem, end, w);
  }

  lemma HoldsLength(mem: Memory, end: nat, w: seq<byte>)
    requires Holds(mem, end, w)
    ensures |w| <= end
  {
  }

  /** Key i lies i strides behind the first. */
  lemma KeyReached(mem: Memory, end: nat, auths: seq<KeyAuth>, rest: seq<byte>, i: nat)
    requires i < |auths| && forall a <- auths :: KeyAuthFits(a)
    requires var w := PutKeyAuths(auths, rest); Holds(mem, end, w) && |w| < UINT32
    ensures KeyAt(mem, end - |PutKeyAuths(auths, rest)|, i, auths[i])
  {
    hide PutKeyAuth, PutKeyAuths, KeyAuthIn, Holds, Window, KeyAuthFits;
    var w, tail := PutKeyAuths(auths, rest), PutKeyAuths(auths[i..], rest);
    KeysStride(auths, i, rest);
    HeldFrom(mem, end, w, tail, KEY_AUTH_SIZE * i);
    HoldsLength(mem, end, w);
    var more := Window(mem, end, WHOLE - |tail|);
    var next := FirstKey(auths[i..], rest);
    assert auths[i] in auths;
    KeyAuthAppend(auths[i], next, more);
    KeyAuthBack(auths[i], next + more);
  }

  lemma FirstKey(auths: seq<KeyAuth>, rest: seq<byte>) returns (next: seq<byte>)
    requires auths != []
    ensures PutKeyAuths(auths, rest) == PutKeyAuth(auths[0], next)
  {
    next := PutKeyAuths(auths[1..], rest);
  }

  lemma FirstVote(votes: seq<nat>, rest: seq<byte>) returns (next: seq<byte>)
    requires votes != []
    ensures PutVotes(votes, rest) == PutLittle(votes[0], 4, next)
  {
    next := PutVotes(votes[1..], rest);
  }

  /** Vote i lies i strides behind the first. */
  lemma VoteReached(mem: Memory, end: nat, votes: seq<nat>, rest: seq<byte>, i: nat)
    requires i < |votes| && forall v <- votes :: v < UINT32
    requires var w := PutVotes(votes, rest); Holds(mem, end, w) && |w| < UINT32
    ensures VoteAt(mem, end - |PutVotes(votes, rest)|, i, votes[i])
  {
    hide PutLittle, PutVotes, LittleIn, Holds, Window;
    var w, tail := PutVotes(votes, rest), PutVotes(votes[i..], rest);
    VotesStride(votes, i, rest);
    HeldFrom(mem, end, w, tail, VOTE_SIZE * i);
    HoldsLength(mem, end, w);
    var more := Window(mem, end, WHOLE - |tail|);
    var next := FirstVote(votes[i..], rest);
    assert votes[i] in votes;
    LittleAppend(votes[i], 4, next, more);
    Little32Back(votes[i], next + more);
  }

  // ---- permissions ----

  predicate PermissionFits(p: PermissionValue) {
    && p.weightThreshold < 0x1_0000_0000
    && (forall a <- p.accounts :: AccountAuthFits(a))
    && (forall a <- p.keys :: KeyAuthFits(a))
  }

  lemma SkipExact(w: seq<byte>, n: nat, size: nat, rest: seq<byte>)
    requires size * n <= |w| < UINT32 && w[size * n..] == rest
    ensures SkipIn(w, n, size) == Some(((), rest)) && EndsIn(w, rest)
  {
    assert n * size == size * n;
    DivModUnique(size * n, UINT32, 0, size * n);
  }

  lemma SkipKeys(auths: seq<KeyAuth>, rest: seq<byte>)
    requires (forall a <- auths :: KeyAuthFits(a)) && |PutKeyAuths(auths, rest)| < UINT32
    ensures SkipIn(PutKeyAuths(auths, rest), |auths|, KEY_AUTH_SIZE) == Some(((), rest))
    ensures EndsIn(PutKeyAuths(auths, rest), rest) && |auths| <= |PutKeyAuths(auths, rest)| - |rest|
  {
    hide SkipIn, EndsIn, KeyAuthFits;
    KeysStride(auths, |auths|, rest);
    assert auths[|auths|..] == [];
    SkipExact(PutKeyAuths(auths, rest), |auths|, KEY_AUTH_SIZE, rest);
  }

  lemma SkipVotes(votes: seq<nat>, rest: seq<byte>)
    requires |PutVotes(votes, rest)| < UINT32
    ensures SkipIn(PutVotes(votes, rest), |votes|, VOTE_SIZE) == Some(((), rest))
    ensures EndsIn(PutVotes(votes, rest), rest) && |votes| <= |PutVotes(votes, rest)| - |rest|
  {
    hide SkipIn, EndsIn;
    VotesStride(votes, |votes|, rest);
    assert votes[|votes|..] == [];
    SkipExact(PutVotes(votes, rest), |votes|, VOTE_SIZE, rest);
  }

  /** What the reader makes of the encoding of p in front of `end`. */
  function Decoded(p: PermissionValue, rest: seq<byte>, end: nat): Permission {
    Permission(p.weightThreshold, |p.accounts|, end - |PutAccountAuths(p.accounts, PutKeysOf(p, rest))|,
               |p.keys|, end - |PutKeyAuths(p.keys, PutVarint(0, rest))|)
  }

  lemma KeysOfEnd(p: PermissionValue, rest: seq<byte>)
    requires PermissionFits(p) && |PutKeysOf(p, rest)| < UINT32
    ensures var arrays := PutKeyAuths(p.keys, PutVarint(0, rest));
      EndsIn(PutKeysOf(p, rest), arrays) && EndsIn(arrays, rest) && |arrays| < UINT32
  {
    var z, k := PutVarint(0, rest), PutKeyAuths(p.keys, PutVarint(0, rest));
    JoinEnds(Varint.Pack(|p.keys|), k);
    JoinEnds(Varint.Pack(0), rest);
    SkipKeys(p.keys, z);
    EndsInTrans(k, z, rest);
  }

  lemma PermissionEnds(p: PermissionValue, rest: seq<byte>)
    requires PermissionFits(p) && |PutPermission(p, rest)| < UINT32
    ensures var a := PutAccountAuths(p.accounts, PutKeysOf(p, rest));
      && EndsIn(PutPermission(p, rest), a) && EndsIn(a, PutKeysOf(p, rest)) && EndsIn(a, rest)
      && EndsIn(PutPermission(p, rest), rest) && |PutKeysOf(p, rest)| <= |a| < UINT32 && |p.accounts| <= |a|
  {
    var k := PutKeysOf(p, rest);
    var a := PutAccountAuths(p.accounts, k);
    AccountAuthsEnd(p.accounts, k);
    JoinEnds(Varint.Pack(|p.accounts|), a);
    LittleEnds(p.weightThreshold, 4, PutVarint(|p.accounts|, a));
    KeysOfEnd(p, rest);
    EndsInTrans(k, PutKeyAuths(p.keys, PutVarint(0, rest)), rest);
    EndsInTrans(a, k, rest);
    EndsInTrans(PutPermission(p, rest), PutVarint(|p.accounts|, a), a);
    EndsInTrans(PutPermission(p, rest), a, rest);
    hide PutAccountAuths, PutKeyAuths, PutLittle, PermissionFits;
  }

  /** A permission of any size is read back, and exactly its encoding is consumed. */
  lemma PermissionBack(p: PermissionValue, rest: seq<byte>, end: nat)
    requires PermissionFits(p) && |PutPermission(p, rest)| < UINT32
    ensures PermissionIn(PutPermission(p, rest), end) == Some((Decoded(p, rest, end), rest))
  {
    hide PutAccountAuths, PutKeyAuths, PutLittle, PutVarint, SeekIn, SkipIn, LittleIn, Varint32In, EndsIn, PermissionIn;
    var z := PutVarint(0, rest);
    var keys := PutKeyAuths(p.keys, z);
    var k := PutKeysOf(p, rest);
    var a := PutAccountAuths(p.accounts, k);
    PermissionEnds(p, rest);
    KeysOfEnd(p, rest);
    SkipKeys(p.keys, z);
    Little32Back(p.weightThreshold, PutVarint(|p.accounts|, a));
    Varint32Back(|p.accounts|, a);
    SeekAll(p.accounts, k, NO_AUTH);
    Varint32Back(|p.keys|, keys);
    Varint32Back(0, rest);
    PermissionSteps(PutPermission(p, rest), PutVarint(|p.accounts|, a), a, k, keys, z, rest, end);
  }

  lemma SeekAll(auths: seq<AccountAuth>, rest: seq<byte>, auth: AccountAuth)
    requires forall a <- auths :: AccountAuthFits(a)
    ensures var r := SeekIn(PutAccountAuths(auths, rest), auth, |auths|); r.Some? && r.value.1 == rest
  {
    SeekBack(auths, |auths|, rest, auth);
    assert auths[|auths|..] == [];
  }

  /** A permission as it is encoded, but with n addresses announced. */
  function PutAddressed(p: PermissionValue, n: nat, rest: seq<byte>): seq<byte> {
    PutLittle(p.weightThreshold, 4,
      PutVarint(|p.accounts|, PutAccountAuths(p.accounts,
        PutVarint(|p.keys|, PutKeyAuths(p.keys, PutVarint(n, rest))))))
  }

  /** A permission that announces addresses is refused. */
  lemma AddressesRefused(p: PermissionValue, n: nat, rest: seq<byte>, end: nat)
    requires PermissionFits(p) && |p.accounts| < 0x1_0000_0000 && 0 < n < 0x1_0000_0000
    requires |PutKeyAuths(p.keys, PutVarint(n, rest))| < 0x1_0000_0000
    ensures PermissionIn(PutAddressed(p, n, rest), end) == None
  {
    hide PutAccountAuths, PutKeyAuths, PutLittle, PutVarint, SeekIn, SkipIn, LittleIn, Varint32In, EndsIn, PermissionIn;
    var z := PutVarint(n, rest);
    var keys := PutKeyAuths(p.keys, z);
    var k := PutVarint(|p.keys|, keys);
    var a := PutAccountAuths(p.accounts, k);
    SkipKeys(p.keys, z);
    Little32Back(p.weightThreshold, PutVarint(|p.accounts|, a));
    Varint32Back(|p.accounts|, a);
    SeekAll(p.accounts, k, NO_AUTH);
    Varint32Back(|p.keys|, keys);
    Varint32Back(n, rest);
    AddressSteps(PutAddressed(p, n, rest), PutVarint(|p.accounts|, a), a, k, keys, z, end);
  }

  lemma AddressSteps(w0: seq<byte>, w1: seq<byte>, w2: seq<byte>, w3: seq<byte>, w4: seq<byte>, w5: seq<byte>, end: nat)
    requires LittleIn(w0, 4).Some? && LittleIn(w0, 4).value.1 == w1
    requires Varint32In(w1).Some? && Varint32In(w1).value.1 == w2
    requires var seek := SeekIn(w2, NO_AUTH, Varint32In(w1).value.0); seek.Some? && seek.value.1 == w3
    requires Varint32In(w3).Some? && Varint32In(w3).value.1 == w4
    requires SkipIn(w4, Varint32In(w3).value.0, KEY_AUTH_SIZE) == Some(((), w5))
    requires Varint32In(w5).Some? && Varint32In(w5).value.0 > 0
    ensures PermissionIn(w0, end) == None
  {
    hide SeekIn, SkipIn, LittleIn, Varint32In;
  }

  /** The steps of the reader, one behind the other. */
  lemma PermissionSteps(w0: seq<byte>, w1: seq<byte>, w2: seq<byte>, w3: seq<byte>, w4: seq<byte>, w5: seq<byte>,
                        w6: seq<byte>, end: nat)
    requires LittleIn(w0, 4).Some? && LittleIn(w0, 4).value.1 == w1
    requires Varint32In(w1).Some? && Varint32In(w1).value.1 == w2
    requires var seek := SeekIn(w2, NO_AUTH, Varint32In(w1).value.0); seek.Some? && seek.value.1 == w3
    requires Varint32In(w3).Some? && Varint32In(w3).value.1 == w4
    requires SkipIn(w4, Varint32In(w3).value.0, KEY_AUTH_SIZE) == Some(((), w5))
    requires Varint32In(w5) == Some((0, w6))
    ensures PermissionIn(w0, end) == Some((Permission(LittleIn(w0, 4).value.0, Varint32In(w1).value.0, end - |w2|,
                                                      Varint32In(w3).value.0, end - |w4|), w6))
  {
    hide SeekIn, SkipIn, LittleIn, Varint32In;
  }

  /** The decoded permission says what p says, its arrays being read through the addresses it keeps; no stride wraps. */
  ghost predicate ShowsPermission(mem: Memory, d: Permission, p: PermissionValue) {
    && d.weightThreshold == p.weightThreshold && d.numAccountAuths == |p.accounts| && d.numKeyAuths == |p.keys|
    && (forall i :: 0 <= i < |p.accounts| ==> AccountAt(mem, d.firstAccountAuth, i + 1, p.accounts[i]))
    && (forall i :: 0 <= i < |p.keys| ==> KeyAt(mem, d.firstKeyAuth, i, p.keys[i]))
    && d.firstAccountAuth >= 0 && d.firstKeyAuth >= 0 && |p.keys| * KEY_AUTH_SIZE < UINT32
  }

  lemma PermissionShown(mem: Memory, end: nat, p: PermissionValue, rest: seq<byte>)
    requires PermissionFits(p) && |PutPermission(p, rest)| < UINT32 && Holds(mem, end, PutPermission(p, rest))
    ensures ShowsPermission(mem, Decoded(p, rest, end), p) && Holds(mem, end, rest)
  {
    hide PutAccountAuths, PutKeyAuths, PutLittle, Holds, AccountAt, KeyAt, EndsIn, PutKeysOf, PutPermission, PutVarint;
    var z := PutVarint(0, rest);
    var k := PutKeysOf(p, rest);
    var a := PutAccountAuths(p.accounts, k);
    PermissionEnds(p, rest);
    KeysOfEnd(p, rest);
    HoldsTail(mem, end, PutPermission(p, rest), a);
    HoldsTail(mem, end, a, k);
    HoldsTail(mem, end, k, PutKeyAuths(p.keys, z));
    HoldsTail(mem, end, a, rest);
    HoldsLength(mem, end, a);
    AccountsReached(mem, end, p.accounts, k);
    KeysReached(mem, end, p.keys, z);
  }

  lemma AccountsReached(mem: Memory, end: nat, accounts: seq<AccountAuth>, rest: seq<byte>)
    requires (forall a <- accounts :: AccountAuthFits(a)) && |PutAccountAuths(accounts, rest)| < UINT32
    requires Holds(mem, end, PutAccountAuths(accounts, rest))
    ensures forall i :: 0 <= i < |accounts| ==>
        AccountAt(mem, end - |PutAccountAuths(accounts, rest)|, i + 1, accounts[i])
  {
    hide PutAccountAuths, Holds, AccountAt;
    forall i | 0 <= i < |accounts| ensures AccountAt(mem, end - |PutAccountAuths(accounts, rest)|, i + 1, accounts[i]) {
      AccountReached(mem, end, accounts, rest, i);
    }
  }

  lemma KeysReached(mem: Memory, end: nat, keys: seq<KeyAuth>, rest: seq<byte>)
    requires (forall a <- keys :: KeyAuthFits(a)) && |PutKeyAuths(keys, rest)| < UINT32
    requires Holds(mem, end, PutKeyAuths(keys, rest))
    ensures |PutKeyAuths(keys, rest)| <= end && |keys| * KEY_AUTH_SIZE < UINT32
    ensures forall i :: 0 <= i < |keys| ==> KeyAt(mem, end - |PutKeyAuths(keys, rest)|, i, keys[i])
  {
    hide PutKeyAuths, Holds, KeyAt, KeyAuthFits;
    HoldsLength(mem, end, PutKeyAuths(keys, rest));
    KeysStride(keys, 0, rest);
    forall i | 0 <= i < |keys| ensures KeyAt(mem, end - |PutKeyAuths(keys, rest)|, i, keys[i]) {
      KeyReached(mem, end, keys, rest, i);
    }
  }

  // ---- extensions, options and memos ----

  predicate ExtensionsFit(e: ExtensionsValue) {
    e.count < 0x1_0000_0000 && (e.count == 0 ==> e.data == [])
  }

  function DecodedExtensions(e: ExtensionsValue, rest: seq<byte>, end: nat): Extensions {
    Extensions(e.count, if e.count > 0 then Some(end - |e.data + rest|) else None)
  }

  /** The count is read; the extensions themselves stay in the window. */
  lemma ExtensionsBack(e: ExtensionsValue, rest: seq<byte>, end: nat)
    requires ExtensionsFit(e)
    ensures ExtensionsIn(PutExtensions(e, rest), end) == Some((DecodedExtensions(e, rest, end), e.data + rest))
    ensures EndsIn(PutExtensions(e, rest), e.data + rest) && EndsIn(PutExtensions(e, rest), rest)
  {
    hide Varint32In, PutVarint;
    Varint32Back(e.count, e.data + rest);
    VarintEnds(e.count, e.data + rest);
    JoinEnds(e.data, rest);
    EndsInTrans(PutExtensions(e, rest), e.data + rest, rest);
  }

  lemma VarintEnds(v: nat, rest: seq<byte>)
    ensures EndsIn(PutVarint(v, rest), rest)
  {
    JoinEnds(Varint.Pack(v), rest);
  }

  ghost predicate ShowsExtensions(mem: Memory, d: Extensions, e: ExtensionsValue) {
    && d.count == e.count && (d.pFirst.Some? <==> e.count > 0)
    && (e.count > 0 ==> d.pFirst.value >= 0 && Window(mem, d.pFirst.value, |e.data|) == e.data)
  }

  lemma ExtensionsShown(mem: Memory, end: nat, e: ExtensionsValue, rest: seq<byte>)
    requires ExtensionsFit(e) && Holds(mem, end, PutExtensions(e, rest))
    ensures ShowsExtensions(mem, DecodedExtensions(e, rest, end), e) && Holds(mem, end, rest)
  {
    ExtensionsBack(e, rest, end);
    HoldsTail(mem, end, PutExtensions(e, rest), e.data + rest);
    HoldsTail(mem, end, PutExtensions(e, rest), rest);
    HeldPrefix(mem, end, e.data, rest);
  }

  lemma HeldPrefix(mem: Memory, end: nat, a: seq<byte>, rest: seq<byte>)
    requires Holds(mem, end, a + rest)
    ensures Window(mem, end - |a + rest|, |a|) == a
  {
    assert Window(mem, end - |a + rest|, |a|) == Window(mem, end - |a + rest|, |a + rest|)[..|a|];
  }

  predicate OptionsFit(o: OptionsValue) {
    && |o.memoPubkey| == 33 && o.votingAccount < 0x1_0000_0000_0000
    && o.numWitnesses < 0x1_0000 && o.numCommittee < 0x1_0000
    && (forall v <- o.votes :: v < 0x1_0000_0000) && ExtensionsFit(o.extensions)
  }

  function DecodedOptions(o: OptionsValue, rest: seq<byte>, end: nat): AccountOptions {
    AccountOptions(o.memoPubkey, o.votingAccount, o.numWitnesses, o.numCommittee,
                   |o.votes|, end - |PutVotes(o.votes, PutExtensions(o.extensions, rest))|,
                   DecodedExtensions(o.extensions, rest, end))
  }

  lemma OptionsEnd(o: OptionsValue, rest: seq<byte>)
    requires OptionsFit(o) && |PutOptions(o, rest)| < UINT32
    ensures var e := PutExtensions(o.extensions, rest);
      var v := PutVotes(o.votes, e);
      && EndsIn(PutOptions(o, rest), v) && EndsIn(v, e) && |v| < UINT32 && |o.votes| <= |v|
      && EndsIn(PutOptions(o, rest), rest)
  {
    hide PutLittle, PutVotes, PutVarint, PutExtensions;
    var e := PutExtensions(o.extensions, rest);
    var v := PutVotes(o.votes, e);
    var w4 := PutVarint(|o.votes|, v);
    var w3 := PutLittle(o.numCommittee, 2, w4);
    var w2 := PutLittle(o.numWitnesses, 2, w3);
    var w1 := PutVarint(o.votingAccount, w2);
    VarintEnds(|o.votes|, v);
    LittleEnds(o.numCommittee, 2, w4);
    LittleEnds(o.numWitnesses, 2, w3);
    VarintEnds(o.votingAccount, w2);
    JoinEnds(o.memoPubkey, w1);
    var w := PutOptions(o, rest);
    EndsInTrans(w, w1, w2);
    EndsInTrans(w, w2, w3);
    EndsInTrans(w, w3, w4);
    EndsInTrans(w, w4, v);
    SkipVotes(o.votes, e);
    ExtensionsBack(o.extensions, rest, 0);
    EndsInTrans(w, v, e);
    EndsInTrans(w, e, rest);
  }

  /** Account options with any number of votes are read back. */
  lemma OptionsBack(o: OptionsValue, rest: seq<byte>, end: nat)
    requires OptionsFit(o) && |PutOptions(o, rest)| < UINT32
    ensures AccountOptionsIn(PutOptions(o, rest), end) == Some((DecodedOptions(o, rest, end), o.extensions.data + rest))
  {
    hide PutLittle, PutVotes, PutVarint, PutExtensions, LittleIn, SkipIn, Varint32In, Varint48In, BytesIn,
         ExtensionsIn, EndsIn;
    var e := PutExtensions(o.extensions, rest);
    var v := PutVotes(o.votes, e);
    var w4 := PutVarint(|o.votes|, v);
    var w3 := PutLittle(o.numCommittee, 2, w4);
    var w2 := PutLittle(o.numWitnesses, 2, w3);
    OptionsEnd(o, rest);
    BytesBack(o.memoPubkey, PutVarint(o.votingAccount, w2));
    Varint48Back(o.votingAccount, w2);
    Little16Back(o.numWitnesses, w3);
    Little16Back(o.numCommittee, w4);
    Varint32Back(|o.votes|, v);
    SkipVotes(o.votes, e);
    ExtensionsBack(o.extensions, rest, end);
  }

  ghost predicate ShowsOptions(mem: Memory, d: AccountOptions, o: OptionsValue) {
    && d.memoPubkey == o.memoPubkey && d.votingAccount == o.votingAccount
    && d.numWitnesses == o.numWitnesses && d.numCommittee == o.numCommittee && d.numVotes == |o.votes|
    && (forall i :: 0 <= i < |o.votes| ==> VoteAt(mem, d.votes, i, o.votes[i]))
    && d.votes >= 0 && |o.votes| * VOTE_SIZE < UINT32
    && ShowsExtensions(mem, d.extensions, o.extensions)
  }

  lemma OptionsShown(mem: Memory, end: nat, o: OptionsValue, rest: seq<byte>)
    requires OptionsFit(o) && |PutOptions(o, rest)| < UINT32 && Holds(mem, end, PutOptions(o, rest))
    ensures ShowsOptions(mem, DecodedOptions(o, rest, end), o) && Holds(mem, end, rest)
  {
    hide PutOptions, PutVotes, PutExtensions, Holds, VoteAt, EndsIn, ShowsExtensions, DecodedExtensions;
    var e := PutExtensions(o.extensions, rest);
    var v := PutVotes(o.votes, e);
    OptionsEnd(o, rest);
    HoldsTail(mem, end, PutOptions(o, rest), v);
    HoldsTail(mem, end, v, e);
    HoldsLength(mem, end, v);
    VotesStride(o.votes, 0, e);
    ExtensionsShown(mem, end, o.extensions, rest);
    forall i | 0 <= i < |o.votes| ensures VoteAt(mem, end - |v|, i, o.votes[i]) {
      VoteReached(mem, end, o.votes, e, i);
    }
  }

  predicate MemoFits(m: MemoValue) {
    |m.fromPubkey| == 33 == |m.toPubkey| && m.nonce < 0x1_0000_0000_0000_0000 && |m.cipherText| < 0x1_0000_0000
  }

  function DecodedMemo(m: MemoValue, rest: seq<byte>, end: nat): Memo {
    Memo(m.fromPubkey, m.toPubkey, m.nonce, |m.cipherText|, end - |m.cipherText + rest|)
  }

  lemma MemoBack(m: MemoValue, rest: seq<byte>, end: nat)
    requires MemoFits(m)
    ensures MemoIn(PutMemo(m, rest), end) == Some((DecodedMemo(m, rest, end), rest))
  {
    hide PutLittle, PutVarint, LittleIn, Varint32In, BytesIn;
    var w3 := PutVarint(|m.cipherText|, m.cipherText + rest);
    var w2 := PutLittle(m.nonce, 8, w3);
    BytesBack(m.fromPubkey, m.toPubkey + w2);
    BytesBack(m.toPubkey, w2);
    Little64Back(m.nonce, w3);
    Varint32Back(|m.cipherText|, m.cipherText + rest);
    BytesBack(m.cipherText, rest);
  }

  ghost predicate ShowsMemo(mem: Memory, d: Memo, m: MemoValue) {
    && d.fromPubkey == m.fromPubkey && d.toPubkey == m.toPubkey && d.nonce == m.nonce
    && d.cipherText >= 0 && Window(mem, d.cipherText, d.cipherTextLength) == m.cipherText
  }

  lemma MemoShown(mem: Memory, end: nat, m: MemoValue, rest: seq<byte>)
    requires MemoFits(m) && Holds(mem, end, PutMemo(m, rest))
    ensures ShowsMemo(mem, DecodedMemo(m, rest, end), m) && Holds(mem, end, rest)
  {
    hide PutLittle, PutVarint, Holds, EndsIn, Window;
    var text := m.cipherText + rest;
    var w3 := PutVarint(|m.cipherText|, text);
    var w2 := PutLittle(m.nonce, 8, w3);
    JoinEnds(m.fromPubkey, m.toPubkey + w2);
    JoinEnds(m.toPubkey, w2);
    HoldsTail(mem, end, PutMemo(m, rest), m.toPubkey + w2);
    HoldsTail(mem, end, m.toPubkey + w2, w2);
    LittleEnds(m.nonce, 8, w3);
    HoldsTail(mem, end, w2, w3);
    VarintEnds(|m.cipherText|, text);
    HoldsTail(mem, end, w3, text);
    JoinEnds(m.cipherText, rest);
    HoldsTail(mem, end, text, rest);
    HeldPrefix(mem, end, m.cipherText, rest);
    HeldLength(mem, end, text);
  }

  lemma HeldLength(mem: Memory, end: nat, s: seq<byte>)
    requires Holds(mem, end, s)
    ensures |s| <= end
  {
  }
}
