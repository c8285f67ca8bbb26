/**
 * The serialized operations: what each reader takes from a window of bytes, what an encoder writes for a value,
 * and that the first undoes the second. A reader here sees nothing but its window.
 */
module Codec {
  import opened Numerals
  import opened Outcomes
  import Varint

  /** Something read, and what is left of the window. */
  type Reading<+T> = Option<(T, seq<byte>)>

  const UINT32: nat := 0x1_0000_0000

  /** The byte at every address: a reader may look past its window, but gets no say in what is there. */
  type Memory = nat -> byte

  function Window(mem: Memory, at: nat, size: nat): seq<byte> {
    seq(size, i requires 0 <= i < size => mem(at + i))
  }

  // ---- readers of the parts ----

  function Little(b: seq<byte>): nat {
    if b == [] then 0 else b[0] + 256 * Little(b[1..])
  }

  function LittleIn(w: seq<byte>, size: nat): Reading<nat> {
    if size <= |w| then Some((Little(w[..size]), w[size..])) else None
  }

  function BytesIn(w: seq<byte>, size: nat): Reading<seq<byte>> {
    if size <= |w| then Some((w[..size], w[size..])) else None
  }

  function VarintIn(w: seq<byte>, max: nat, bound: nat): Reading<nat> {
    match Varint.Group(w, max)
    case None => None
    case Some((v, n)) => if v < bound then Some((v, w[n..])) else None
  }

  function Varint32In(w: seq<byte>): Reading<nat> {
    VarintIn(w, 5, Varint.BOUND32)
  }

  function Varint48In(w: seq<byte>): Reading<nat> {
    VarintIn(w, 7, Varint.BOUND48)
  }

  function BoolIn(w: seq<byte>): Reading<bool> {
    if w == [] then None else Some((w[0] != 0, w[1..]))
  }

  const KEY_SIZE: nat := 33
  const KEY_AUTH_SIZE: nat := 35
  const VOTE_SIZE: nat := 4

  datatype Asset = Asset(amount: nat, instanceId: nat)

  function AssetIn(w: seq<byte>): Reading<Asset> {
    var amount :- LittleIn(w, 8);
    var instance :- Varint48In(amount.1);
    Some((Asset(amount.0, instance.0), instance.1))
  }

  datatype AccountAuth = AccountAuth(accountId: nat, weight: nat)

  function AccountAuthIn(w: seq<byte>): Reading<AccountAuth> {
    var id :- Varint48In(w);
    var weight :- LittleIn(id.1, 2);
    Some((AccountAuth(id.0, weight.0), weight.1))
  }

  /** The last of `seek` records read in a row; none leaves what was there. */
  function SeekIn(w: seq<byte>, auth: AccountAuth, seek: nat): Reading<AccountAuth> {
    if seek == 0 then Some((auth, w)) else
      var next :- AccountAuthIn(w);
      SeekIn(next.1, next.0, seek - 1)
  }

  datatype KeyAuth = KeyAuth(pubkey: seq<byte>, weight: nat)

  function KeyAuthIn(w: seq<byte>): Reading<KeyAuth> {
    var pubkey :- BytesIn(w, KEY_SIZE);
    var weight :- LittleIn(pubkey.1, 2);
    Some((KeyAuth(pubkey.0, weight.0), weight.1))
  }

  /** Skip n records of a fixed size: the product is taken in 32 bits. */
  function SkipIn(w: seq<byte>, n: nat, size: nat): Reading<()> {
    var gobbled := n * size % UINT32;
    if gobbled <= |w| then Some(((), w[gobbled..])) else None
  }

  /** A permission keeps the addresses of its two arrays; `end` is the address behind the window. */
  datatype Permission = Permission(
    weightThreshold: nat, numAccountAuths: nat, firstAccountAuth: int, numKeyAuths: nat, firstKeyAuth: int)

  const NO_AUTH := AccountAuth(0, 0)

  function PermissionIn(w: seq<byte>, end: nat): Reading<Permission> {
    var threshold :- LittleIn(w, 4);
    var accounts :- Varint32In(threshold.1);
    var past :- SeekIn(accounts.1, NO_AUTH, accounts.0);
    var keys :- Varint32In(past.1);
    var skip :- SkipIn(keys.1, keys.0, KEY_AUTH_SIZE);
    var addresses :- Varint32In(skip.1);
    if addresses.0 != 0 then None else
      Some((Permission(threshold.0, accounts.0, end - |accounts.1|, keys.0, end - |keys.1|), addresses.1))
  }

  /** How many extensions there are, and where they start if there are any. */
  datatype Extensions = Extensions(count: nat, pFirst: Option<int>)

  function ExtensionsIn(w: seq<byte>, end: nat): Reading<Extensions> {
    var count :- Varint32In(w);
    Some((Extensions(count.0, if count.0 > 0 then Some(end - |count.1|) else None), count.1))
  }

  datatype AccountOptions = AccountOptions(
    memoPubkey: seq<byte>, votingAccount: nat, numWitnesses: nat, numCommittee: nat, numVotes: nat, votes: int,
    extensions: Extensions)

  function AccountOptionsIn(w: seq<byte>, end: nat): Reading<AccountOptions> {
    var memo :- BytesIn(w, KEY_SIZE);
    var voting :- Varint48In(memo.1);
    var witnesses :- LittleIn(voting.1, 2);
    var committee :- LittleIn(witnesses.1, 2);
    var votes :- Varint32In(committee.1);
    var skip :- SkipIn(votes.1, votes.0, VOTE_SIZE);
    var extensions :- ExtensionsIn(skip.1, end);
    Some((AccountOptions(memo.0, voting.0, witnesses.0, committee.0, votes.0, end - |votes.1|, extensions.0),
        extensions.1))
  }

  datatype Memo = Memo(fromPubkey: seq<byte>, toPubkey: seq<byte>, nonce: nat, cipherTextLength: nat, cipherText: int)

  function MemoIn(w: seq<byte>, end: nat): Reading<Memo> {
    var from :- BytesIn(w, KEY_SIZE);
    var to :- BytesIn(from.1, KEY_SIZE);
    var nonce :- LittleIn(to.1, 8);
    var length :- Varint32In(nonce.1);
    var text :- BytesIn(length.1, length.0);
    Some((Memo(from.0, to.0, nonce.0, length.0, end - |length.1|), text.1))
  }

  // ---- optional parts ----

  function OptionalPermissionIn(w: seq<byte>, end: nat): Reading<Option<Permission>> {
    var present :- BoolIn(w);
    if !present.0 then Some((None, present.1)) else
      var p :- PermissionIn(present.1, end);
      Some((Some(p.0), p.1))
  }

  function OptionalAccountOptionsIn(w: seq<byte>, end: nat): Reading<Option<AccountOptions>> {
    var present :- BoolIn(w);
    if !present.0 then Some((None, present.1)) else
      var o :- AccountOptionsIn(present.1, end);
      Some((Some(o.0), o.1))
  }

  function OptionalMemoIn(w: seq<byte>, end: nat): Reading<Option<Memo>> {
    var present :- BoolIn(w);
    if !present.0 then Some((None, present.1)) else
      var m :- MemoIn(present.1, end);
      Some((Some(m.0), m.1))
  }

  // ---- operations ----

  /** The extensions of the operation are only read when the ones inside the options are absent. */
  datatype AccountUpdate = AccountUpdate(
    feeAsset: Asset, accountId: nat, ownerPermission: Option<Permission>, activePermission: Option<Permission>,
    accountOptions: Option<AccountOptions>, extensions: Option<Extensions>, containsUninterpretable: bool)

  function AccountUpdateIn(w: seq<byte>, end: nat): Reading<AccountUpdate> {
    var fee :- AssetIn(w);
    var account :- Varint48In(fee.1);
    var owner :- OptionalPermissionIn(account.1, end);
    var active :- OptionalPermissionIn(owner.1, end);
    var options :- OptionalAccountOptionsIn(active.1, end);
    if options.0.Some? && options.0.value.extensions.count > 0 then
      Some((AccountUpdate(fee.0, account.0, owner.0, active.0, options.0, None, true), options.1))
    else
      var extensions :- ExtensionsIn(options.1, end);
      Some((AccountUpdate(fee.0, account.0, owner.0, active.0, options.0, Some(extensions.0), extensions.0.count > 0),
            extensions.1))
  }

  datatype Transfer = Transfer(
    feeAsset: Asset, fromId: nat, toId: nat, transferAsset: Asset, memo: Option<Memo>, extensions: Extensions,
    containsUninterpretable: bool)

  function TransferIn(w: seq<byte>, end: nat): Reading<Transfer> {
    var fee :- AssetIn(w);
    var from :- Varint48In(fee.1);
    var to :- Varint48In(from.1);
    var asset :- AssetIn(to.1);
    var memo :- OptionalMemoIn(asset.1, end);
    var extensions :- ExtensionsIn(memo.1, end);
    Some((Transfer(fee.0, from.0, to.0, asset.0, memo.0, extensions.0, extensions.0.count > 0), extensions.1))
  }

  datatype LimitOrderCreate = LimitOrderCreate(
    feeAsset: Asset, sellerId: nat, sellAsset: Asset, buyAsset: Asset, expires: nat, fillOrKill: bool,
    extensions: Extensions, containsUninterpretable: bool)

  function LimitOrderCreateIn(w: seq<byte>, end: nat): Reading<LimitOrderCreate> {
    var fee :- AssetIn(w);
    var seller :- Varint48In(fee.1);
    var sell :- AssetIn(seller.1);
    var buy :- AssetIn(sell.1);
    var expires :- LittleIn(buy.1, 4);
    var fill :- BoolIn(expires.1);
    var extensions :- ExtensionsIn(fill.1, end);
    Some((LimitOrderCreate(fee.0, seller.0, sell.0, buy.0, expires.0, fill.0, extensions.0, extensions.0.count > 0),
          extensions.1))
  }

  datatype LimitOrderCancel = LimitOrderCancel(
    feeAsset: Asset, accountId: nat, orderId: nat, extensions: Extensions, containsUninterpretable: bool)

  function LimitOrderCancelIn(w: seq<byte>, end: nat): Reading<LimitOrderCancel> {
    var fee :- AssetIn(w);
    var account :- Varint48In(fee.1);
    var order :- Varint48In(account.1);
    var extensions :- ExtensionsIn(order.1, end);
    Some((LimitOrderCancel(fee.0, account.0, order.0, extensions.0, extensions.0.count > 0), extensions.1))
  }

  datatype AccountUpgrade = AccountUpgrade(
    feeAsset: Asset, accountId: nat, upgradeLtm: bool, extensions: Extensions, containsUninterpretable: bool)

  function AccountUpgradeIn(w: seq<byte>, end: nat): Reading<AccountUpgrade> {
    var fee :- AssetIn(w);
    var account :- Varint48In(fee.1);
    var upgrade :- BoolIn(account.1);
    var extensions :- ExtensionsIn(upgrade.1, end);
    Some((AccountUpgrade(fee.0, account.0, upgrade.0, extensions.0, extensions.0.count > 0), extensions.1))
  }
}
