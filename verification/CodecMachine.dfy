/**
 * The deserializers, which walk a cursor over memory and read before they check how much of the window is left.
 * Each is proved to do what the reader of the same name in Codec does with the bytes inside the window: what lies
 * behind the window has no say in whether the value is accepted, in the value, or in the count returned.
 */
module CodecMachine {
  import opened Numerals
  import opened Outcomes
  import opened Codec
  import Varint

  /** The result is what `spec` found in the window, with the count of bytes taken from it. */
  ghost predicate Reads<T(!new)>(r: Result<(T, nat)>, mem: Memory, buffer: nat, size: nat, spec: Reading<T>) {
    match spec
    case None => r.Throw?
    case Some((v, rest)) =>
      r.Ok? && r.value.0 == v && r.value.1 <= size && rest == Window(mem, buffer + r.value.1, size - r.value.1)
  }

  lemma WindowTail(mem: Memory, at: nat, size: nat, n: nat)
    requires n <= size
    ensures Window(mem, at, size)[n..] == Window(mem, at + n, size - n)
    ensures Window(mem, at, size)[..n] == Window(mem, at, n)
  {
  }

  /** Looking past the window changes nothing about a varint that ends inside it, and none is found if it does not. */
  lemma VarintWindow(mem: Memory, at: nat, size: nat, max: nat)
    ensures Varint.Group(Window(mem, at, size), max)
         == match Varint.Group(Window(mem, at, max), max)
            case None => None
            case Some((v, n)) => if n <= size then Some((v, n)) else None
  {
    var wide, narrow := Window(mem, at, max), Window(mem, at, size);
    var g, h := Varint.Group(wide, max), Varint.Group(narrow, max);
    hide Varint.Group;
    if g.Some? && g.value.1 <= size {
      WindowTail(mem, at, max, g.value.1);
      WindowTail(mem, at, size, g.value.1);
      Varint.GroupLocal(wide, narrow, max);
    } else if h.Some? {
      WindowTail(mem, at, max, h.value.1);
      WindowTail(mem, at, size, h.value.1);
      Varint.GroupLocal(narrow, wide, max);
    }
  }

  // ---- fixed-size parts ----

  method DeserializeLittle(mem: Memory, buffer: nat, bufferLength: nat, size: nat) returns (r: Result<(nat, nat)>)
    ensures Reads(r, mem, buffer, bufferLength, LittleIn(Window(mem, buffer, bufferLength), size))
  {
    var v := Little(Window(mem, buffer, size));
    if size > bufferLength {
      return Throw(Exception);
    }
    WindowTail(mem, buffer, bufferLength, size);
    return Ok((v, size));
  }

  method DeserializeBtsPublicKeyType(mem: Memory, buffer: nat, bufferLength: nat) returns (r: Result<(seq<byte>, nat)>)
    ensures Reads(r, mem, buffer, bufferLength, BytesIn(Window(mem, buffer, bufferLength), KEY_SIZE))
  {
    var key := Window(mem, buffer, KEY_SIZE);
    if KEY_SIZE > bufferLength {
      return Throw(Exception);
    }
    WindowTail(mem, buffer, bufferLength, KEY_SIZE);
    return Ok((key, KEY_SIZE));
  }

  method DeserializeBtsBoolType(mem: Memory, buffer: nat, bufferLength: nat) returns (r: Result<(bool, nat)>)
    ensures Reads(r, mem, buffer, bufferLength, BoolIn(Window(mem, buffer, bufferLength)))
    ensures r == if bufferLength == 0 then Throw(Exception) else Ok((mem(buffer) != 0, 1))
  {
    var temp := mem(buffer);
    if 1 > bufferLength {
      return Throw(Exception);
    }
    WindowTail(mem, buffer, bufferLength, 1);
    return Ok((temp != 0, 1));
  }

  method DeserializeBtsVarint32Type(mem: Memory, buffer: nat, bufferLength: nat) returns (r: Result<(nat, nat)>)
    ensures Reads(r, mem, buffer, bufferLength, Varint32In(Window(mem, buffer, bufferLength)))
  {
    VarintWindow(mem, buffer, bufferLength, 5);
    hide Varint.Group;
    var unpacked :- Varint.UnpackVarint32(Window(mem, buffer, 5));
    if unpacked.1 > bufferLength {
      return Throw(Exception);
    }
    WindowTail(mem, buffer, bufferLength, unpacked.1);
    return Ok(unpacked);
  }

  method DeserializeBtsVarint48Type(mem: Memory, buffer: nat, bufferLength: nat) returns (r: Result<(nat, nat)>)
    ensures Reads(r, mem, buffer, bufferLength, Varint48In(Window(mem, buffer, bufferLength)))
  {
    VarintWindow(mem, buffer, bufferLength, 7);
    hide Varint.Group;
    var unpacked :- Varint.UnpackVarint48(Window(mem, buffer, 7));
    if unpacked.1 > bufferLength {
      return Throw(Exception);
    }
    WindowTail(mem, buffer, bufferLength, unpacked.1);
    return Ok(unpacked);
  }

  method DeserializeBtsAssetType(mem: Memory, buffer: nat, bufferLength: nat) returns (r: Result<(Asset, nat)>)
    ensures Reads(r, mem, buffer, bufferLength, AssetIn(Window(mem, buffer, bufferLength)))
  {
    hide Window, LittleIn, Varint48In;
    var read, at, left := 0, buffer, bufferLength;
    var amount :- DeserializeLittle(mem, at, left, 8);
    read, at, left := read + amount.1, at + amount.1, left - amount.1;
    var instance :- DeserializeBtsVarint48Type(mem, at, left);
    if instance.1 > left {
      return Throw(Exception);
    }
    read, at, left := read + instance.1, at + instance.1, left - instance.1;
    return Ok((Asset(amount.0, instance.0), read));
  }

  // ---- permissions ----

  /** Reads `seek` records and returns the last, with the count of bytes of all of them. */
  method SeekDeserializeBtsAccountAuthType(mem: Memory, buffer: nat, bufferLength: nat, before: AccountAuth, seek: nat)
    returns (r: Result<(AccountAuth, nat)>)
    ensures Reads(r, mem, buffer, bufferLength, SeekIn(Window(mem, buffer, bufferLength), before, seek))
  {
    hide Window, LittleIn, Varint48In;
    var read, at, left, auth, remaining := 0, buffer, bufferLength, before, seek;
    while remaining > 0
      invariant at == buffer + read && left == bufferLength - read
      invariant SeekIn(Window(mem, buffer, bufferLength), before, seek)
          == SeekIn(Window(mem, at, left), auth, remaining)
    {
      var id :- DeserializeBtsVarint48Type(mem, at, left);
      auth := auth.(accountId := id.0);
      if id.1 > left {
        return Throw(Exception);
      }
      read, at, left := read + id.1, at + id.1, left - id.1;
      var weight :- DeserializeLittle(mem, at, left, 2);
      auth := auth.(weight := weight.0);
      read, at, left := read + weight.1, at + weight.1, left - weight.1;
      remaining := remaining - 1;
    }
    return Ok((auth, read));
  }

  method DeserializeBtsKeyAuthType(mem: Memory, buffer: nat, bufferLength: nat) returns (r: Result<(KeyAuth, nat)>)
    ensures Reads(r, mem, buffer, bufferLength, KeyAuthIn(Window(mem, buffer, bufferLength)))
  {
    hide Window, LittleIn, BytesIn;
    var read, at, left := 0, buffer, bufferLength;
    var pubkey :- DeserializeBtsPublicKeyType(mem, at, left);
    if pubkey.1 > left {
      return Throw(Exception);
    }
    read, at, left := read + pubkey.1, at + pubkey.1, left - pubkey.1;
    var weight :- DeserializeLittle(mem, at, left, 2);
    read, at, left := read + weight.1, at + weight.1, left - weight.1;
    return Ok((KeyAuth(pubkey.0, weight.0), read));
  }

  /** Seek past an array of n records of a fixed size; the product is a 32-bit one. */
  method SeekPast(mem: Memory, buffer: nat, bufferLength: nat, n: nat, size: nat) returns (r: Result<((), nat)>)
    ensures Reads(r, mem, buffer, bufferLength, SkipIn(Window(mem, buffer, bufferLength), n, size))
  {
    var gobbled := n * size % UINT32;
    if gobbled > bufferLength {
      return Throw(Exception);
    }
    WindowTail(mem, buffer, bufferLength, gobbled);
    return Ok(((), gobbled));
  }

  method DeserializeBtsPermissionType(mem: Memory, buffer: nat,
                                      bufferLength: nat) returns (r: Result<(Permission, nat)>)
    ensures Reads(r, mem, buffer, bufferLength, PermissionIn(Window(mem, buffer, bufferLength), buffer + bufferLength))
  {
    hide LittleIn, Varint32In, SeekIn, SkipIn;
    WindowLengths(mem);
    hide Window;
    var read, at, left := 0, buffer, bufferLength;

    var weightThreshold :- DeserializeLittle(mem, at, left, 4);
    read, at, left := read + weightThreshold.1, at + weightThreshold.1, left - weightThreshold.1;

    var numAccountAuths :- DeserializeBtsVarint32Type(mem, at, left);
    if numAccountAuths.1 > left {
      return Throw(Exception);
    }
    read, at, left := read + numAccountAuths.1, at + numAccountAuths.1, left - numAccountAuths.1;

    var firstAccountAuth := at;
    var dummy :- SeekDeserializeBtsAccountAuthType(mem, at, left, NO_AUTH, numAccountAuths.0);
    if dummy.1 > left {
      return Throw(Exception);
    }
    read, at, left := read + dummy.1, at + dummy.1, left - dummy.1;

    var numKeyAuths :- DeserializeBtsVarint32Type(mem, at, left);
    if numKeyAuths.1 > left {
      return Throw(Exception);
    }
    read, at, left := read + numKeyAuths.1, at + numKeyAuths.1, left - numKeyAuths.1;

    var firstKeyAuth := at;
    var keys :- SeekPast(mem, at, left, numKeyAuths.0, KEY_AUTH_SIZE);
    read, at, left := read + keys.1, at + keys.1, left - keys.1;

    var numAddressAuths :- DeserializeBtsVarint32Type(mem, at, left);
    if numAddressAuths.1 > left {
      return Throw(Exception);
    }
    read, at, left := read + numAddressAuths.1, at + numAddressAuths.1, left - numAddressAuths.1;

    if numAddressAuths.0 != 0 {
      return Throw(Exception);
    }
    return Ok((Permission(weightThreshold.0, numAccountAuths.0, firstAccountAuth, numKeyAuths.0, firstKeyAuth), read));
  }

  lemma WindowLengths(mem: Memory)
    ensures forall at: nat, size: nat :: |Window(mem, at, size)| == size
  {
  }

  // ---- options, memos and extensions ----

  method DeserializeBtsExtensionArrayType(mem: Memory, buffer: nat, bufferLength: nat)
    returns (r: Result<(Extensions, nat)>)
    ensures Reads(r, mem, buffer, bufferLength, ExtensionsIn(Window(mem, buffer, bufferLength), buffer + bufferLength))
  {
    hide Varint32In;
    WindowLengths(mem);
    hide Window;
    var read, at, left := 0, buffer, bufferLength;
    var count :- DeserializeBtsVarint32Type(mem, at, left);
    if count.1 > left {
      return Throw(Exception);
    }
    read, at, left := read + count.1, at + count.1, left - count.1;
    var pFirst := if count.0 > 0 then Some(at) else None;
    return Ok((Extensions(count.0, pFirst), read));
  }

  method DeserializeBtsAccountOptionsType(mem: Memory, buffer: nat, bufferLength: nat)
    returns (r: Result<(AccountOptions, nat)>)
    ensures Reads(r, mem, buffer, bufferLength,
        AccountOptionsIn(Window(mem, buffer, bufferLength), buffer + bufferLength))
  {
    hide LittleIn, BytesIn, Varint32In, Varint48In, SkipIn, ExtensionsIn;
    WindowLengths(mem);
    hide Window;
    var read, at, left := 0, buffer, bufferLength;

    var memoPubkey :- DeserializeBtsPublicKeyType(mem, at, left);
    if memoPubkey.1 > left {
      return Throw(Exception);
    }
    read, at, left := read + memoPubkey.1, at + memoPubkey.1, left - memoPubkey.1;

    var votingAccount :- DeserializeBtsVarint48Type(mem, at, left);
    if votingAccount.1 > left {
      return Throw(Exception);
    }
    read, at, left := read + votingAccount.1, at + votingAccount.1, left - votingAccount.1;

    var numWitnesses :- DeserializeLittle(mem, at, left, 2);
    read, at, left := read + numWitnesses.1, at + numWitnesses.1, left - numWitnesses.1;

    var numCommittee :- DeserializeLittle(mem, at, left, 2);
    read, at, left := read + numCommittee.1, at + numCommittee.1, left - numCommittee.1;

    var numVotes :- DeserializeBtsVarint32Type(mem, at, left);
    if numVotes.1 > left {
      return Throw(Exception);
    }
    read, at, left := read + numVotes.1, at + numVotes.1, left - numVotes.1;

    var votes := at;
    var skipped :- SeekPast(mem, at, left, numVotes.0, VOTE_SIZE);
    read, at, left := read + skipped.1, at + skipped.1, left - skipped.1;

    var extensions :- DeserializeBtsExtensionArrayType(mem, at, left);
    if extensions.1 > left {
      return Throw(Exception);
    }
    read, at, left := read + extensions.1, at + extensions.1, left - extensions.1;

    return Ok((AccountOptions(memoPubkey.0, votingAccount.0, numWitnesses.0, numCommittee.0, numVotes.0, votes,
        extensions.0),
               read));
  }

  method DeserializeBtsMemoType(mem: Memory, buffer: nat, bufferLength: nat) returns (r: Result<(Memo, nat)>)
    ensures Reads(r, mem, buffer, bufferLength, MemoIn(Window(mem, buffer, bufferLength), buffer + bufferLength))
  {
    hide LittleIn, BytesIn, Varint32In;
    WindowLengths(mem);
    var read, at, left := 0, buffer, bufferLength;

    var fromPubkey :- DeserializeBtsPublicKeyType(mem, at, left);
    if fromPubkey.1 > left {
      return Throw(Exception);
    }
    read, at, left := read + fromPubkey.1, at + fromPubkey.1, left - fromPubkey.1;

    var toPubkey :- DeserializeBtsPublicKeyType(mem, at, left);
    if toPubkey.1 > left {
      return Throw(Exception);
    }
    read, at, left := read + toPubkey.1, at + toPubkey.1, left - toPubkey.1;

    var nonce :- DeserializeLittle(mem, at, left, 8);
    read, at, left := read + nonce.1, at + nonce.1, left - nonce.1;

    var cipherTextLength :- DeserializeBtsVarint32Type(mem, at, left);
    if cipherTextLength.1 > left {
      return Throw(Exception);
    }
    read, at, left := read + cipherTextLength.1, at + cipherTextLength.1, left - cipherTextLength.1;

    var cipherText := at;
    BytesWindow(mem, at, left, cipherTextLength.0);
    hide Window;
    if cipherTextLength.0 > left {
      return Throw(Exception);
    }
    read, at, left := read + cipherTextLength.0, at + cipherTextLength.0, left - cipherTextLength.0;

    return Ok((Memo(fromPubkey.0, toPubkey.0, nonce.0, cipherTextLength.0, cipherText), read));
  }

  lemma BytesWindow(mem: Memory, at: nat, size: nat, n: nat)
    ensures BytesIn(Window(mem, at, size), n)
         == if n <= size then Some((Window(mem, at, n), Window(mem, at + n, size - n))) else None
  {
    if n <= size {
      WindowTail(mem, at, size, n);
    }
  }

  // ---- operations ----

  method DeserializeOptionalPermission(mem: Memory, buffer: nat, bufferLength: nat)
    returns (r: Result<(Option<Permission>, nat)>)
    ensures Reads(r, mem, buffer, bufferLength,
                  OptionalPermissionIn(Window(mem, buffer, bufferLength), buffer + bufferLength))
  {
    hide BoolIn, PermissionIn, Window;
    var read, at, left := 0, buffer, bufferLength;
    var present :- DeserializeBtsBoolType(mem, at, left);
    if present.1 > left {
      return Throw(Exception);
    }
    read, at, left := read + present.1, at + present.1, left - present.1;
    if !present.0 {
      return Ok((None, read));
    }
    var permission :- DeserializeBtsPermissionType(mem, at, left);
    if permission.1 > left {
      return Throw(Exception);
    }
    return Ok((Some(permission.0), read + permission.1));
  }

  method DeserializeOptionalAccountOptions(mem: Memory, buffer: nat, bufferLength: nat)
    returns (r: Result<(Option<AccountOptions>, nat)>)
    ensures Reads(r, mem, buffer, bufferLength,
                  OptionalAccountOptionsIn(Window(mem, buffer, bufferLength), buffer + bufferLength))
  {
    hide BoolIn, AccountOptionsIn, Window;
    var read, at, left := 0, buffer, bufferLength;
    var present :- DeserializeBtsBoolType(mem, at, left);
    if present.1 > left {
      return Throw(Exception);
    }
    read, at, left := read + present.1, at + present.1, left - present.1;
    if !present.0 {
      return Ok((None, read));
    }
    var options :- DeserializeBtsAccountOptionsType(mem, at, left);
    if options.1 > left {
      return Throw(Exception);
    }
    return Ok((Some(options.0), read + options.1));
  }

  method DeserializeOptionalMemo(mem: Memory, buffer: nat, bufferLength: nat) returns (r: Result<(Option<Memo>, nat)>)
    ensures Reads(r, mem, buffer, bufferLength,
        OptionalMemoIn(Window(mem, buffer, bufferLength), buffer + bufferLength))
  {
    hide BoolIn, MemoIn, Window;
    var read, at, left := 0, buffer, bufferLength;
    var present :- DeserializeBtsBoolType(mem, at, left);
    if present.1 > left {
      return Throw(Exception);
    }
    read, at, left := read + present.1, at + present.1, left - present.1;
    if !present.0 {
      return Ok((None, read));
    }
    var memo :- DeserializeBtsMemoType(mem, at, left);
    if memo.1 > left {
      return Throw(Exception);
    }
    return Ok((Some(memo.0), read + memo.1));
  }

  method DeserializeBtsOperationAccountUpdate(mem: Memory, buffer: nat, bufferLength: nat)
    returns (r: Result<(AccountUpdate, nat)>)
    ensures Reads(r, mem, buffer, bufferLength,
        AccountUpdateIn(Window(mem, buffer, bufferLength), buffer + bufferLength))
  {
    hide AssetIn, Varint48In, OptionalPermissionIn, OptionalAccountOptionsIn, ExtensionsIn, Window;
    var read, at, left := 0, buffer, bufferLength;

    var feeAsset :- DeserializeBtsAssetType(mem, at, left);
    if feeAsset.1 > left {
      return Throw(Exception);
    }
    read, at, left := read + feeAsset.1, at + feeAsset.1, left - feeAsset.1;

    var accountId :- DeserializeBtsVarint48Type(mem, at, left);
    if accountId.1 > left {
      return Throw(Exception);
    }
    read, at, left := read + accountId.1, at + accountId.1, left - accountId.1;

    var ownerPermission :- DeserializeOptionalPermission(mem, at, left);
    read, at, left := read + ownerPermission.1, at + ownerPermission.1, left - ownerPermission.1;

    var activePermission :- DeserializeOptionalPermission(mem, at, left);
    read, at, left := read + activePermission.1, at + activePermission.1, left - activePermission.1;

    var accountOptions :- DeserializeOptionalAccountOptions(mem, at, left);
    read, at, left := read + accountOptions.1, at + accountOptions.1, left - accountOptions.1;

    var containsUninterpretable := accountOptions.0.Some? && accountOptions.0.value.extensions.count > 0;
    var extensions: Option<Extensions> := None;
    if !containsUninterpretable {
      var last :- DeserializeBtsExtensionArrayType(mem, at, left);
      if last.1 > left {
        return Throw(Exception);
      }
      read, at, left := read + last.1, at + last.1, left - last.1;
      extensions := Some(last.0);
      containsUninterpretable := last.0.count > 0;
    }
    return Ok((AccountUpdate(feeAsset.0, accountId.0, ownerPermission.0, activePermission.0, accountOptions.0,
                             extensions, containsUninterpretable), read));
  }

  method DeserializeBtsOperationTransfer(mem: Memory, buffer: nat,
                                         bufferLength: nat) returns (r: Result<(Transfer, nat)>)
    ensures Reads(r, mem, buffer, bufferLength, TransferIn(Window(mem, buffer, bufferLength), buffer + bufferLength))
  {
    hide AssetIn, Varint48In, OptionalMemoIn, ExtensionsIn, Window;
    var read, at, left := 0, buffer, bufferLength;

    var feeAsset :- DeserializeBtsAssetType(mem, at, left);
    if feeAsset.1 > left {
      return Throw(Exception);
    }
    read, at, left := read + feeAsset.1, at + feeAsset.1, left - feeAsset.1;

    var fromId :- DeserializeBtsVarint48Type(mem, at, left);
    if fromId.1 > left {
      return Throw(Exception);
    }
    read, at, left := read + fromId.1, at + fromId.1, left - fromId.1;

    var toId :- DeserializeBtsVarint48Type(mem, at, left);
    if toId.1 > left {
      return Throw(Exception);
    }
    read, at, left := read + toId.1, at + toId.1, left - toId.1;

    var transferAsset :- DeserializeBtsAssetType(mem, at, left);
    if transferAsset.1 > left {
      return Throw(Exception);
    }
    read, at, left := read + transferAsset.1, at + transferAsset.1, left - transferAsset.1;

    var memo :- DeserializeOptionalMemo(mem, at, left);
    read, at, left := read + memo.1, at + memo.1, left - memo.1;

    var extensions :- DeserializeBtsExtensionArrayType(mem, at, left);
    if extensions.1 > left {
      return Throw(Exception);
    }
    read, at, left := read + extensions.1, at + extensions.1, left - extensions.1;

    return Ok((Transfer(feeAsset.0, fromId.0, toId.0, transferAsset.0, memo.0, extensions.0, extensions.0.count > 0),
        read));
  }

  method DeserializeBtsOperationLimitOrderCreate(mem: Memory, buffer: nat, bufferLength: nat)
    returns (r: Result<(LimitOrderCreate, nat)>)
    ensures Reads(r, mem, buffer, bufferLength,
                  LimitOrderCreateIn(Window(mem, buffer, bufferLength), buffer + bufferLength))
  {
    hide AssetIn, Varint48In, LittleIn, BoolIn, ExtensionsIn, Window;
    var read, at, left := 0, buffer, bufferLength;

    var feeAsset :- DeserializeBtsAssetType(mem, at, left);
    if feeAsset.1 > left {
      return Throw(Exception);
    }
    read, at, left := read + feeAsset.1, at + feeAsset.1, left - feeAsset.1;

    var sellerId :- DeserializeBtsVarint48Type(mem, at, left);
    if sellerId.1 > left {
      return Throw(Exception);
    }
    read, at, left := read + sellerId.1, at + sellerId.1, left - sellerId.1;

    var sellAsset :- DeserializeBtsAssetType(mem, at, left);
    if sellAsset.1 > left {
      return Throw(Exception);
    }
    read, at, left := read + sellAsset.1, at + sellAsset.1, left - sellAsset.1;

    var buyAsset :- DeserializeBtsAssetType(mem, at, left);
    if buyAsset.1 > left {
      return Throw(Exception);
    }
    read, at, left := read + buyAsset.1, at + buyAsset.1, left - buyAsset.1;

    var expires :- DeserializeLittle(mem, at, left, 4);
    if expires.1 > left {
      return Throw(Exception);
    }
    read, at, left := read + expires.1, at + expires.1, left - expires.1;

    var fillOrKill :- DeserializeBtsBoolType(mem, at, left);
    if fillOrKill.1 > left {
      return Throw(Exception);
    }
    read, at, left := read + fillOrKill.1, at + fillOrKill.1, left - fillOrKill.1;

    var extensions :- DeserializeBtsExtensionArrayType(mem, at, left);
    if extensions.1 > left {
      return Throw(Exception);
    }
    read, at, left := read + extensions.1, at + extensions.1, left - extensions.1;

    return Ok((LimitOrderCreate(feeAsset.0, sellerId.0, sellAsset.0, buyAsset.0, expires.0, fillOrKill.0, extensions.0,
                                extensions.0.count > 0), read));
  }

  method DeserializeBtsOperationLimitOrderCancel(mem: Memory, buffer: nat, bufferLength: nat)
    returns (r: Result<(LimitOrderCancel, nat)>)
    ensures Reads(r, mem, buffer, bufferLength,
        LimitOrderCancelIn(Window(mem, buffer, bufferLength), buffer + bufferLength))
  {
    hide AssetIn, Varint48In, ExtensionsIn, Window;
    var read, at, left := 0, buffer, bufferLength;

    var feeAsset :- DeserializeBtsAssetType(mem, at, left);
    if feeAsset.1 > left {
      return Throw(Exception);
    }
    read, at, left := read + feeAsset.1, at + feeAsset.1, left - feeAsset.1;

    var accountId :- DeserializeBtsVarint48Type(mem, at, left);
    if accountId.1 > left {
      return Throw(Exception);
    }
    read, at, left := read + accountId.1, at + accountId.1, left - accountId.1;

    var orderId :- DeserializeBtsVarint48Type(mem, at, left);
    if orderId.1 > left {
      return Throw(Exception);
    }
    read, at, left := read + orderId.1, at + orderId.1, left - orderId.1;

    var extensions :- DeserializeBtsExtensionArrayType(mem, at, left);
    if extensions.1 > left {
      return Throw(Exception);
    }
    read, at, left := read + extensions.1, at + extensions.1, left - extensions.1;

    return Ok((LimitOrderCancel(feeAsset.0, accountId.0, orderId.0, extensions.0, extensions.0.count > 0), read));
  }

  method DeserializeBtsOperationAccountUpgrade(mem: Memory, buffer: nat, bufferLength: nat)
    returns (r: Result<(AccountUpgrade, nat)>)
    ensures Reads(r, mem, buffer, bufferLength,
        AccountUpgradeIn(Window(mem, buffer, bufferLength), buffer + bufferLength))
  {
    hide AssetIn, Varint48In, BoolIn, ExtensionsIn, Window;
    var read, at, left := 0, buffer, bufferLength;

    var feeAsset :- DeserializeBtsAssetType(mem, at, left);
    if feeAsset.1 > left {
      return Throw(Exception);
    }
    read, at, left := read + feeAsset.1, at + feeAsset.1, left - feeAsset.1;

    var accountId :- DeserializeBtsVarint48Type(mem, at, left);
    if accountId.1 > left {
      return Throw(Exception);
    }
    read, at, left := read + accountId.1, at + accountId.1, left - accountId.1;

    var upgradeLtm :- DeserializeBtsBoolType(mem, at, left);
    if upgradeLtm.1 > left {
      return Throw(Exception);
    }
    read, at, left := read + upgradeLtm.1, at + upgradeLtm.1, left - upgradeLtm.1;

    var extensions :- DeserializeBtsExtensionArrayType(mem, at, left);
    if extensions.1 > left {
      return Throw(Exception);
    }
    read, at, left := read + extensions.1, at + extensions.1, left - extensions.1;

    return Ok((AccountUpgrade(feeAsset.0, accountId.0, upgradeLtm.0, extensions.0, extensions.0.count > 0), read));
  }
}
