# Verification of the BitShares signing application

A model, in Dafny 4.11, of what happens between the transaction a user means to sign and the screens on which the
hardware wallet asks for a confirmation, with proofs that the two agree.

The host serializes a transaction as a flat sequence of DER fields and sends it in chunks. The device reassembles headers
across chunk boundaries, hashes every field into two hash contexts, and keeps the payloads of the operations it knows in a
768-byte cache. When the stream has ended, a timer walks through the operations; their payloads are decoded again for every
screen and printed into two short lines of text. After the confirmation the signature is brought into its fixed form.

| files | what they model |
|---|---|
| `Numerals`, `Outcomes` | positional numerals; results of operations that may throw |
| `Varint`, `Tlv` | variable-length integers and field headers |
| `StreamSpec`, `StreamChunks`, `StreamFields`, `StreamMeaning` | the streaming machine as a function on snapshots; independence from chunking; whole fields; what was hashed and kept |
| `StreamMachine` | the machine as the source has it, two objects updated step by step, proved to do what the function says |
| `Finishing` | exactly which streams of fields finish, and how many operations are known of on the way |
| `SizeBuffer`, `Rejection` | exactly which streams leave the twelve bytes of `sizeBuffer`; what becomes of a stream after a fault |
| `HostEncoding`, `RoundTrip`, `Acceptance` | the host's encoder, the round trip, and exactly when it holds |
| `Signing` | the command handler, the derivation path, the host's chunk loop, a whole session |
| `Base58`, `KeyText` | base58 conversion in place, public keys as text |
| `Codec`, `CodecMachine` | what each decoder takes from a window of bytes; the decoders as cursors over memory |
| `CodecRoundTrip`, `OperationRoundTrip`, `DecodedLists` | encoders, round trips, and walking the arrays again later |
| `CText`, `Assets`, `Times`, `Lists` | C strings in buffers; amounts, dates and lists as text |
| `ParseOperations`, `Screens`, `ScreenCycle`, `ScreenMachine` | the screens of every operation, and the cycle in which they are shown |
| `PayloadScreens`, `AlikeReviews`, `StreamReview` | what decides a screen: the payload, and before it the values of the stream |
| `LiveReview`, `Restarts` | blocks and ticks that arrive while a transaction is under review; a display that is started over |
| `Listings` | the list of screens that the meant operations call for |
| `CutLists`, `ToldLists`, `TextsTell`, `ReviewTells` | the way back: what the screens tell of the operations, and exactly when they tell all |
| `Signature` | DER to the fixed form, the canonical range, the retry loop |
| `EndToEnd` | from the meant operations to the screens, through everything above |
| `Examples` | transactions that come with the application, their bytes and screens written out |

How some things are represented:

- A hash context is the sequence of bytes it has absorbed; RIPEMD-160 and SHA-256 are arbitrary functions of a fixed result
  length, the signer an arbitrary list of answers.
- THROW is a result; a stream that throws has the status Fault.
- `processHelperGobbleCommandBytes` copies into the 12-byte `sizeBuffer` without looking at the field length. A copy that
  would leave the buffer has its own status, Overrun, because nothing can be said about what follows it. Which streams do
  that is stated exactly (`SizeBuffer.OverrunsExactly`, for a transaction `Acceptance.OverrunsOnExtension`), and no theorem
  decides what becomes of one that does: where a status is Finished, or an outcome Returned or Raised, no byte has been copied
  past the twelve. No list size, operation id or extension count of at most twelve bytes leaves the buffer.
- Memory is a function from addresses to bytes, so that a decoder may look past its window. What it finds there is shown not
  to matter, with one exception that the source has too: a list whose length product has wrapped around is walked on behind
  the payload. Pointers kept in decoded structures are addresses.
- The 32-bit products `numKeyAuths * 35` and `numVotes * 4`, and those of the printers, are taken modulo 2^32.
- The texts that `snprintf` is asked for are written out, and `snprintf` itself is a bounded append that always terminates
  (section 7.21.6.5 of C11).

Where the code is not what its comments or its users might expect, the code is followed:

- An operation id is one byte on the wire and is read as a varint: ids from 128 on arrive as other ids
  (`RoundTrip.OneByteCount`, `Acceptance.ReceivedExactly`).
- The comment of `bloodyHackyDateDecode` says it will work up to the year 2100; it does so up to the end of February of it
  (`Times.BloodyHackyDateDecode`). Its day of the month counts from 0.
- A header with four length octets never decodes, because `tlvBuffer` has five bytes (`Tlv.HeaderShape`).
- A stream whose last bytes are a header of length zero behind an operation stays in processing, because the byte-free moves
  are made only while there are bytes left (`Finishing.EmptyLast`). The extension count the host writes without an entry for
  the extensions is never empty, so this does not happen to it.
- The length checks of the lists in an account update are products in 32 bits. 2^30 votes and none of them there pass them, and
  the printer then reads on behind the payload (`PayloadScreens.WrappedVotesShown`; the exact condition is in
  `DecodedLists.ListsLieWithin`). Reviews are stated for transactions in which no such product has wrapped around.
- An entry of thirteen zero bytes for the extensions says zero to its reader, but is copied past the end of `sizeBuffer`
  (`Acceptance.ThirteenZeros`).
- A block that opens a request is served while a transaction is under review. It re-initialises the content that the timer
  reads, and the message hash stays that of the earlier transaction until the new stream has finished
  (`LiveReview.OpenedUnderReview`; the exact condition is in `LiveReview.ReviewHoldsExactly`).
- The value line holds 127 characters, so that the end of a longer list is not shown: with two keys already the last weight may
  be cut (`ReviewTells.ScreensTellExactly`, `ReviewTells.AlikeBeyondTheCut`). Memo and extensions are not shown at all
  (`ReviewTells.ShownAlike`).
- A first block with no path element or more than ten is refused after its length has been stored, so that a stream opened
  before can still be finished, with a path of another length (`Signing.LengthAsOpened`).

## Model

| member | source | states |
|---|---|---|
| `Varint.UnpackVarint32` | src/bts_types.c:33-51 | the loop over at most five bytes yields the value of the leading base-128 group and its length, and overflows exactly when the group does not end in five bytes or its value needs more than 32 bits |
| `Varint.UnpackVarint48` | src/bts_types.c:53-71 | the same for seven bytes and 48 bits |
| `Varint.RoundTrip32` | src/bts_types.c:33-51 | unpacking the shortest encoding of any v below 2^32 gives v and the length, at most 5, whatever bytes follow |
| `Varint.RoundTrip48` | src/bts_types.c:53-71 | unpacking the shortest encoding of any v below 2^48 gives v and the length, at most 7, whatever bytes follow |
| `Varint.GroupLocal` | src/bts_types.c:33-71 | a varint is decided by the bytes it counts: bytes behind it never change value or length |
| `Varint.UnpackedExactly` | src/bts_types.c:33-71 | the numbers that are read, in numbers: a group of n bytes weighs seven bits a byte, the first ones least; it is a 32-bit number if n is at most five and the weight below 2^32, a 48-bit number if n is at most seven and the weight below 2^48, and an overflow otherwise |
| `Varint.UnpackedNever` | src/bts_types.c:33-71 | bytes that all have the high bit are an overflow |
| `Tlv.TlvTryDecode` | src/eos_utils.c:141-188 | the decoder reports invalid, not yet decoded, or decoded with the big-endian length, by the tag number and the length octets collected so far |
| `Tlv.HeaderSays` | src/eos_utils.c:141-188 | what a header says, in numbers: it is valid if and only if its tag number is 4 and its second byte at most 0x84; below 0x80 that byte is the length, and after 0x81 to 0x83 one to three octets are, the first counting most |
| `Tlv.HeaderTag` | SimpleGUIWallet/wallet_actions.py:129-148 | every header that is written starts with 0x04, and a length below 128 is one byte |
| `Tlv.HeaderRoundTrip` | src/eos_utils.c:141-188 | for every length below 2^24 the shortest header decodes to it at its last byte, and every strict prefix is valid but incomplete |
| `Tlv.HeaderTooLong` | src/eos_utils.c:141-188 | the header of a field of 2^24 bytes or more is not decoded at any of the five bytes the device has room for |
| `Tlv.HeaderShape` | src/eos_utils.c:141-188 | the second byte decides where a header ends: up to 0x83 it decodes at that byte and at no earlier one; after 0x84 it does not decode within the five bytes of tlvBuffer |
| `StreamSpec.DispatchValid` | src/bts_stream.c:351-416 | in every valid state one pass through the switch keeps the invariant (operations seen, due and to come within the limit, ordered offsets within 768, positions within fields, every index in range), reads a prefix of the input, and either reads a byte or lowers the rank, which is what makes the loop end; once the count has been read, the sum of the operations seen, due and to come stays what it is |
| `StreamSpec.ListSizeExactly` | src/bts_stream.c:199-223 | a list size that is complete is taken if and only if it can be read and says one, two, three or four, and so many operations are then due |
| `StreamSpec.KeptExactly` | src/bts_stream.c:255-280 | payloads are kept of the operations 0, 1, 2, 6 and 8, and there is room for them up to 768 bytes |
| `StreamSpec.Run` | src/bts_stream.c:309-418 | a call always ends; unless it faults or overruns it leaves a valid state, and it reports finished exactly when that state is DONE |
| `StreamSpec.Turn` | src/bts_stream.c:309-418 | the same for a call resumed inside a field; together with Run the lexicographic measure (bytes left, byte-free moves left) of the unbounded loop |
| `StreamMachine.TxContext.Init` | src/bts_stream.c:38-53 | a new request starts from the initial snapshot, whatever went before |
| `StreamMachine.TxContext.HashTxData` | src/bts_stream.c:99-104 | both hashes absorb the same bytes |
| `StreamMachine.TxContext.GobbleCommandBytes` | src/bts_stream.c:113-129 | both hashes absorb the bytes at hand of the field, the buffer holds them at the field position, and nothing else changes |
| `StreamMachine.TxContext.ProcessField` | src/bts_stream.c:138-148 | the whole new state after a field that is only hashed |
| `StreamMachine.TxContext.ProcessChainIdField` | src/bts_stream.c:154-165 | the whole new state after the chain id: the transaction id hash starts over |
| `StreamMachine.TxContext.ProcessZeroSizeField` | src/bts_stream.c:173-193 | the whole new state after the extension count, a fault if it is not zero |
| `StreamMachine.TxContext.ProcessOperationListSizeField` | src/bts_stream.c:199-223 | the whole new state after the operation count; the next state is reached only with one to four operations, and a fault only with a size that cannot be read or is not one of these |
| `StreamMachine.TxContext.ProcessOperationIdField` | src/bts_stream.c:228-250 | the whole new state after an operation id |
| `StreamMachine.TxContext.ProcessOperationDataField` | src/bts_stream.c:255-280 | the whole new state after a kept payload, a fault before anything is read if it does not fit |
| `StreamMachine.TxContext.ProcessUnsupportedOperationDataField` | src/bts_stream.c:286-307 | the whole new state after a payload that is hashed and not kept |
| `StreamMachine.TxContext.FeedTlvBuffer` | src/bts_stream.c:321-349 | one header byte: a fault, more to come, or the field opened with its length |
| `StreamMachine.TxContext.DecodeHeader` | src/bts_stream.c:317-350 | the header loop reads until a field is open or no byte is left, and what is still to come is what the whole call was to give |
| `StreamMachine.TxContext.Switch` | src/bts_stream.c:351-416 | one pass through the switch is one step of the specification; the default branch is not reachable |
| `StreamMachine.TxContext.ProcessTxInternal` | src/bts_stream.c:309-418 | the loop ends and leaves status, state and unread bytes as the specified run does |
| `StreamMachine.TxContext.ProcessTxStream` | src/bts_stream.c:468-491 | one call from any valid state gives exactly the status, state, hashes, cache and leftover of the specified run |
| `StreamChunks.RunConcat` | src/bts_stream.c:309-418 | from any valid state, A and then B give what A followed by B in one call gives: the same status, state, header and size buffers, cache and hash inputs; an abort in A is an abort of the whole |
| `StreamChunks.FeedIsRun` | src/bts_stream.c:309-418 | feeding any list of chunks is one call on their concatenation |
| `StreamChunks.ChunkingsAgree` | src/bts_stream.c:309-418 | any two ways to cut one stream into chunks agree |
| `StreamFields.RunField` | src/bts_stream.c:309-418 | a stream that starts with a whole field is read as that field at once and then the rest, wherever the header begins and whatever byte-free moves come in between |
| `StreamFields.PassedField` | src/bts_stream.c:309-418 | a call that gets past the field due at a boundary, by finishing or by ending in a later state, has begun by reading one whole, well-formed field |
| `StreamMeaning.TakeFieldAgrees` | src/bts_stream.c:138-307 | a field taken in agreement with the values before it leaves agreement with its value added: hashes, phase, ids and cache slices |
| `StreamMeaning.FinishedRunAgrees` | src/bts_stream.c:99-307 | every finished run has read whole fields, the message hash absorbed exactly their values, the transaction id hash the same without the chain id, each supported operation keeps its payload field and every other keeps nothing, every number was readable, and the extension count was zero |
| `Finishing.FinishesExactly` | src/bts_stream.c:138-418 | which streams finish, of all that do not leave sizeBuffer (for those see SizeBuffer.OverrunsExactly): well-formed fields are read to their end, and what follows them is left, if and only if one to four operations are declared and as many are there, list size, ids and extension count can be read and have at most twelve bytes, the supported payloads fit 768 bytes together, the extension count is zero, and the last field has a byte of its own or behind it |
| `Finishing.EmptyLast` | src/bts_stream.c:309-418 | if the last of such fields is empty, the device is still processing when all of them have been read, and finishes with any byte more, which it leaves |
| `Finishing.BudgetKept` | src/bts_stream.c:199-250 | no call changes the sum of the operations seen, due and to come once their count has been read |
| `Finishing.DeclaredCount` | src/bts_stream.c:199-250 | in every snapshot that any chunks lead to, also inside a header, an id or a payload, operations seen, due and to come add up to the number that the fifth field declared |
| `HostEncoding.EncodeTlvTx` | SimpleGUIWallet/wallet_actions.py:129-148 | for every transaction the encoder writes one OCTET STRING field for every value, in order, the last being the extensions if there is an entry for them and a zero byte if not |
| `HostEncoding.WriteOperations` | SimpleGUIWallet/wallet_actions.py:139-141 | the loop writes an id and a payload for every operation |
| `RoundTrip.OneByteCount` | SimpleGUIWallet/wallet_actions.py:140-140 | an id written as one byte is read back as itself if and only if it is below 128 |
| `Finishing.StartIsSum` | src/bts_stream.c:255-307 | the cache in use before an operation is what the supported payloads before it take |
| `Finishing.ReadsOn` | src/bts_stream.c:309-418 | from any state that agrees with the first k values, the fields with the others, as long as each can be taken, are read to their end, and what follows them is read from a state that agrees with all |
| `RoundTrip.TransactionRoundTrip` | SimpleGUIWallet/wallet_actions.py:129-148 | for every acceptable transaction the device finishes exactly at the end of what the host writes, has hashed every value, and knows every id and every supported payload in order |
| `Finishing.SameFields` | src/bts_stream.c:317-350 | a stream of well-formed fields can be read in one way only, even if the other reading has fields that are too long for the device |
| `SizeBuffer.OverrunsExactly` | src/bts_stream.c:113-129 | for every stream whatever: the copy leaves the twelve bytes of sizeBuffer if and only if the stream begins with whole fields that are taken, then the header of a list size, an operation id or an extension count of more than twelve bytes, and at least thirteen bytes behind that |
| `SizeBuffer.FieldsOverrun` | src/bts_stream.c:113-129 | a stream of fields leaves sizeBuffer if and only if one of them is a number of more than twelve bytes and all before it are taken |
| `SizeBuffer.ShortNumbersStay` | src/bts_stream.c:173-250 | no stream of fields leaves sizeBuffer of which the fifth and every second one behind it has at most twelve bytes |
| `Acceptance.ReadAsWritten` | src/bts_stream.c:309-418 | a run that finishes at the end of what was written has read the values that were written, none of them of 2^24 bytes or more |
| `Acceptance.ReceivedExactly` | src/bts_stream.c:113-280 | of all transactions the host can hold, exactly those with an overlong extension entry that is reached leave sizeBuffer; of all others the device receives as they were sent exactly those with one to four operations, ids below 128, fields below 2^24 bytes, supported payloads of at most 768 bytes together, and an extension entry, if any, of at most twelve bytes that says zero |
| `Acceptance.OneTransfer` | src/bts_stream.c:199-280 | a transaction of one operation with id 0 and at most 768 bytes, each of its other fields below 2^24 bytes and no entry for the extensions, is received: one operation, id 0, its payload at the start of the cache |
| `Acceptance.OverrunsOnExtension` | src/bts_stream.c:113-129 | what the host writes leaves sizeBuffer if and only if its entry for the extensions has more than twelve bytes and all else is as the device takes it |
| `Acceptance.ThirteenZeros` | src/bts_stream.c:113-193 | an input that shows it: thirteen zero bytes as the entry for the extensions of a transaction that is acceptable without it; the twelve bytes that fit would be read as a count of zero |
| `Signing.ParseBip32Path` | SimpleGUIWallet/wallet_actions.py:37-48 | the path bytes are the big-endian words of the elements; a hardened element has a word of at least 2^31 that is congruent to the index modulo 2^31, any other the index itself, and an element below 2^31 can be told from its word; an error exactly when an element needs more than 32 bits |
| `Signing.PathWordSays` | SimpleGUIWallet/wallet_actions.py:47-47 | the same of a single word |
| `Signing.WordValue` | src/main.c:204-211 | the device reads a word as the value of four bytes to the base 256, the first counting most |
| `Signing.PathRoundTrip` | src/main.c:204-211 | the device reads back every word of the path the host wrote, whatever follows it |
| `Signing.Device.ReadPath` | src/main.c:204-211 | the loop fills the path with the words of the block |
| `Signing.Device.HandleSign` | src/main.c:187-261 | the reply, the path, the message hash and the new stream state for every kind of block: first, next, malformed, without a request, or behind a fault; the length of the path is overwritten even by a first block that is refused, the message hash only when a stream has finished |
| `Rejection.FaultSticks` | src/bts_stream.c:309-418 | whatever made a valid stream fault, the device is left at a field or header that will fault again, or with all five bytes of tlvBuffer used |
| `Rejection.RejectedForGood` | src/bts_stream.c:309-418 | any chunk that is not empty is then rejected again, until a request is opened or tlvBuffer is full |
| `Signing.LengthAsOpened` | src/main.c:193-209 | between opening and review the path keeps its length if and only if no first block was refused on the way |
| `Signing.ServeMore` | src/main.c:187-261 | over any blocks that do not start the request over and hold no faulty chunk the stream sees the chunks alone, the words of the path stay, its length is that of the last refused block, and once the stream has finished the message hash is that of the stream |
| `Signing.GetSignatureFromNano` | SimpleGUIWallet/wallet_actions.py:152-185 | the chunk loop ends, in one of three ways. Unpredictable: exactly when the path has one to ten elements and the stream leaves the twelve bytes of sizeBuffer. Returned: exactly when there is something to send, the path has one to ten elements and the stream neither faults nor leaves sizeBuffer; the device is then where one call on the whole would leave it. Raised: otherwise; any other path is refused with the first block, or not sent because the length of the block takes three hexadecimal digits. Every reply is the one due to the bytes sent so far |
| `Signing.StrictPrefixProcessing` | src/bts_stream.c:309-418 | a stream that finishes exactly at its end is still being processed after every shorter prefix |
| `Signing.RepliesToWhole` | SimpleGUIWallet/wallet_actions.py:164-185 | such a stream gets 0x9000 for every chunk but the last, and the review for the last |
| `Signing.SignTransaction` | SimpleGUIWallet/wallet_actions.py:152-185 | host and device together: for every acceptable transaction and path the replies are the expected ones, and the device holds the path with its hardening, the operations, and as the message hash that of all values |
| `Base58.B58Enc` | src/eos_utils.c:28-71 | the text is the exact base58 form of the bytes and its terminator, written if it fits and not at all otherwise; the size needed is reported either way |
| `Base58.Alphabet` | src/eos_utils.c:22-26 | the digits are written with the 58 characters of the base58 alphabet, in its order |
| `Base58.Convert` | src/eos_utils.c:34-53 | the digit buffer of n * 138 / 100 + 1 digits has the value of the bytes |
| `Base58.AbsorbByte` | src/eos_utils.c:41-53 | one turn of the outer loop multiplies by 256 and adds the byte; stopping at high skips only zero digits, and no carry is left |
| `Base58.FoldDigit` | src/eos_utils.c:43-52 | one turn of the inner loop keeps digits, carry and untouched head denoting the target |
| `Base58.WriteText` | src/eos_utils.c:63-68 | the ones, the letters and the terminator, and nothing else |
| `Base58.EnoughDigits` | src/eos_utils.c:37-37 | n * 138 / 100 + 1 base58 digits hold n bytes for every n, and one digit less holds all but the last byte |
| `Base58.RoundTrip` | src/eos_utils.c:28-71 | a decoder inverts the encoding, leading zero bytes included |
| `Base58.EncodeInjective` | src/eos_utils.c:28-71 | different bytes have different texts |
| `Base58.SkipZeros` | src/eos_utils.c:55-55 | behind the leading zeros of the buffer stand the minimal digits of its value |
| `KeyText.CompressedPublicKeyToWif` | src/bts_types.c:88-116 | a normal return means that the whole text and its terminator are in the buffer; everything else throws, although the result of the conversion is ignored |
| `KeyText.PrettyPrintPublicKey` | src/bts_t_pubkey.c:43-51 | for every 33-byte key and every checksum 56 characters are enough |
| `KeyText.TextLength` | src/bts_types.c:88-116 | no key has a text of more than 54 characters, because 256^37 < 58^51 |
| `KeyText.TextDecodes` | src/bts_types.c:88-116 | the text is BTS and a base58 text, from which the key and the first four bytes of its digest can be read back |
| `CodecMachine.VarintWindow` | src/bts_t_varint.c:25-64 | reading past the window before the check changes neither whether a varint is accepted nor its value |
| `CodecMachine.DeserializeLittle` | src/bts_t_time.c:28-45 | a little-endian field of a fixed size is read or refused, with its fields and its count, as the bytes inside the window alone decide; the count never exceeds the window |
| `CodecMachine.DeserializeBtsPublicKeyType` | src/bts_t_pubkey.c:25-41 | a public key is read or refused, with its fields and its count, as the bytes inside the window alone decide; the count never exceeds the window |
| `CodecMachine.DeserializeBtsBoolType` | src/bts_t_bool.c:23-43 | a truth value is read or refused, with its fields and its count, as the bytes inside the window alone decide; the count never exceeds the window |
| `CodecMachine.DeserializeBtsVarint32Type` | src/bts_t_varint.c:51-64 | a 32-bit varint is read or refused, with its fields and its count, as the bytes inside the window alone decide; the count never exceeds the window |
| `CodecMachine.DeserializeBtsVarint48Type` | src/bts_t_varint.c:25-38 | a 48-bit varint is read or refused, with its fields and its count, as the bytes inside the window alone decide; the count never exceeds the window |
| `CodecMachine.DeserializeBtsAssetType` | src/bts_t_asset.c:25-48 | an asset is read or refused, with its fields and its count, as the bytes inside the window alone decide; the count never exceeds the window |
| `CodecMachine.SeekDeserializeBtsAccountAuthType` | src/bts_t_permission.c:83-108 | the last of the records passed over, and the bytes of all of them, is read or refused, with its fields and its count, as the bytes inside the window alone decide; the count never exceeds the window |
| `CodecMachine.DeserializeBtsKeyAuthType` | src/bts_t_permission.c:110-132 | a key and its weight is read or refused, with its fields and its count, as the bytes inside the window alone decide; the count never exceeds the window |
| `CodecMachine.DeserializeBtsPermissionType` | src/bts_t_permission.c:25-81 | a permission with the addresses of its two arrays is read or refused, with its fields and its count, as the bytes inside the window alone decide; the count never exceeds the window |
| `CodecMachine.DeserializeBtsAccountOptionsType` | src/bts_t_account_options.c:24-79 | account options with the address of the votes is read or refused, with its fields and its count, as the bytes inside the window alone decide; the count never exceeds the window |
| `CodecMachine.DeserializeBtsExtensionArrayType` | src/bts_t_extensions.c:22-45 | the extension count and where the extensions start is read or refused, with its fields and its count, as the bytes inside the window alone decide; the count never exceeds the window |
| `CodecMachine.DeserializeBtsMemoType` | src/bts_t_memo.c:22-64 | a memo with the address of its text is read or refused, with its fields and its count, as the bytes inside the window alone decide; the count never exceeds the window |
| `CodecMachine.DeserializeBtsOperationAccountUpdate` | src/bts_op_account_update.c:23-110 | an account update is read or refused, with its fields and its count, as the bytes inside the window alone decide; the count never exceeds the window |
| `CodecMachine.DeserializeBtsOperationTransfer` | src/bts_op_transfer.c:23-82 | a transfer is read or refused, with its fields and its count, as the bytes inside the window alone decide; the count never exceeds the window |
| `CodecMachine.DeserializeBtsOperationLimitOrderCreate` | src/bts_op_limit_order_create.c:23-80 | a limit order is read or refused, with its fields and its count, as the bytes inside the window alone decide; the count never exceeds the window |
| `CodecMachine.DeserializeBtsOperationLimitOrderCancel` | src/bts_op_limit_order_cancel.c:23-62 | the cancelling of an order is read or refused, with its fields and its count, as the bytes inside the window alone decide; the count never exceeds the window |
| `CodecMachine.DeserializeBtsOperationAccountUpgrade` | src/bts_op_account_upgrade.c:23-62 | an account upgrade is read or refused, with its fields and its count, as the bytes inside the window alone decide; the count never exceeds the window |
| `CodecRoundTrip.SeekBack` | src/bts_t_permission.c:83-108 | seeking k records of an encoded list gives record k, whatever the result held before, and leaves the others |
| `CodecRoundTrip.PermissionBack` | src/bts_t_permission.c:25-81 | the encoding of every permission is decoded, and exactly it is consumed |
| `CodecRoundTrip.PermissionShown` | src/bts_t_permission.c:25-132 | through the addresses kept, rescanning i + 1 records gives account i and the stride of 35 gives key i of what was encoded |
| `CodecRoundTrip.AddressesRefused` | src/bts_t_permission.c:66-75 | a permission that announces any addresses is refused |
| `CodecRoundTrip.OptionsBack` | src/bts_t_account_options.c:24-79 | the encoding of account options with any number of votes is decoded |
| `CodecRoundTrip.OptionsShown` | src/bts_t_account_options.c:24-95 | through the address kept, the stride of 4 gives vote i of what was encoded |
| `CodecRoundTrip.MemoBack` | src/bts_t_memo.c:22-64 | the encoding of every memo is decoded, and exactly it is consumed |
| `OperationRoundTrip.AccountUpdateRoundTrip` | src/bts_op_account_update.c:23-110 | every account update, with or without each part and with lists of any length, is decoded to what it says; its encoding is consumed up to the first extensions it carries, wholly if it carries none |
| `OperationRoundTrip.TransferRoundTrip` | src/bts_op_transfer.c:23-82 | every transfer, with or without a memo, is decoded to what it says |
| `OperationRoundTrip.LimitOrderCreateRoundTrip` | src/bts_op_limit_order_create.c:23-80 | every limit order is decoded to what it says |
| `OperationRoundTrip.LimitOrderCancelRoundTrip` | src/bts_op_limit_order_cancel.c:23-62 | every cancelled order is decoded to what it says |
| `OperationRoundTrip.AccountUpgradeRoundTrip` | src/bts_op_account_upgrade.c:23-62 | every account upgrade is decoded to what it says |
| `DecodedLists.SeekMore` | src/bts_t_permission.c:83-108 | a rescan with more bytes behind the window reads the same records |
| `DecodedLists.AccountUpdateReadable` | src/bts_t_permission.c:151-175 | whatever bytes an account update was decoded from, its accounts can be read again from the address it keeps, without the bounds of the first reading |
| `DecodedLists.ListsLieWithin` | src/bts_t_permission.c:41-64 | the accounts of a decoded account update always lie inside its payload; its keys and votes do if and only if numKeyAuths * 35 and numVotes * 4 are below 2^32 |
| `PayloadScreens.KeysDecided` | src/bts_t_permission.c:194-218 | the keys walked for the display depend on the payload alone if and only if numKeyAuths * 35 is below 2^32 |
| `PayloadScreens.VotesDecided` | src/bts_t_account_options.c:108-132 | the votes walked for the display depend on the payload alone if and only if numVotes * 4 is below 2^32 |
| `PayloadScreens.WrappedVotesShown` | src/bts_t_account_options.c:55-67 | account options that announce 2^30 votes and hold none are decoded, and two memories that agree on all their bytes show different votes |
| `PayloadScreens.UpdateDecided` | src/bts_parse_operations.c:271-356 | every screen of an account update whose list lengths have not wrapped around is the same for any two memories that agree on its payload |
| `CText.Ui64toa` | src/eos_utils.c:105-118 | the decimal numeral of the number and a terminator, and nothing outside them |
| `CText.DecimalBack` | src/eos_utils.c:105-118 | the numeral denotes the number, has no needless leading zero, and is never empty |
| `CText.Append` | src/bts_t_permission.c:143-146 | a bounded append and the length taken anew: the buffer holds the beginning of everything written so far, terminated |
| `Assets.GetBtsAssetDescription` | src/bts_t_asset.c:98-409 | symbol and precision of every asset, the symbol in a buffer of 23 characters: those that a table from symbols to ids and decimals has for each of the 71 listed assets, and the text form of the id without decimals for all others |
| `Assets.SymbolFits` | src/bts_t_asset.c:98-409 | every symbol and its terminator fit 23 characters for ids below 2^48, and no precision exceeds 8 |
| `Assets.SymbolBack` | src/bts_t_asset.c:98-409 | every symbol is read back, by a table of its own, as its asset with its decimals: 71 listed assets, and any other by its number and without decimals |
| `Assets.ListedExactly` | src/bts_t_asset.c:98-409 | exactly the assets of these 71 numbers are listed |
| `Assets.AssetTextExact` | src/bts_t_asset.c:50-95 | the text of an amount is a decimal, a blank and a symbol, and with the decimals that the reading table has for that symbol the decimal denotes the amount |
| `Assets.LeadingNought` | src/bts_t_asset.c:66-70 | the integer quotient that the source tests is at least ten exactly when one more leading nought is due |
| `Assets.SplitAmount` | src/bts_t_asset.c:56-75 | whole part, number of leading noughts and stripped fraction of every amount at every precision |
| `Assets.AmountExact` | src/bts_t_asset.c:50-96 | the decimal denotes exactly amount / 10^precision, has at most the digits of the precision, none that could be dropped, and a point only before digits |
| `Assets.PrettyPrintBtsAssetType` | src/bts_t_asset.c:50-96 | the buffer holds exactly that decimal, a blank and the symbol, within 54 characters for every 64-bit amount, and asset and amount are read back from it by the table from symbols to decimals |
| `Assets.AssetTextBack` | src/bts_t_asset.c:50-96 | amount and asset are read back from the text, by a table of its own from symbols to ids and decimals |
| `Assets.AssetTextInjective` | src/bts_t_asset.c:50-96 | different amounts or assets never look alike |
| `Lists.PrettyPrintBtsAccountAuth` | src/bts_t_permission.c:134-149 | the beginning of the entry that fits, terminated |
| `Lists.PrettyPrintBtsKeyAuth` | src/bts_t_permission.c:177-192 | the same for a key |
| `Lists.PrettyPrintBtsVoteType` | src/bts_t_account_options.c:97-106 | the same for a vote |
| `Lists.ReadAccount` | src/bts_t_permission.c:159-161 | a rescan of i + 1 records gives record i, or a throw if there is none |
| `Lists.PrettyPrintBtsAccountAuthsList` | src/bts_t_permission.c:151-175 | for any number of entries the buffer ends as the first bufferLength - 1 characters of the simple rendering of the whole list, terminated and in bounds; it throws exactly if a record cannot be read |
| `Lists.PrettyPrintBtsKeyAuthsList` | src/bts_t_permission.c:194-218 | the same for keys, which never throws |
| `Lists.PrettyPrintBtsVotesList` | src/bts_t_account_options.c:108-132 | the same for votes |
| `Lists.SeekIsRecord` | src/bts_t_permission.c:159-162 | rescanning from the start ends on the record that one pass over the list meets there |
| `Lists.ShownLists` | src/bts_t_permission.c:151-218 | the entries printed for a decoded permission are those that were encoded |
| `Lists.ShownVotes` | src/bts_t_account_options.c:108-132 | the votes printed for decoded options are those that were encoded |
| `Times.BloodyHackyDateDecode` | src/bts_t_time.c:74-117 | for every 32-bit time the fields re-encode to it under the rule of a leap year every fourth year, and are the Gregorian date and time if and only if it is below 4107542400 |
| `Times.QuadIsGregorian` | src/bts_t_time.c:69-73 | a date by that rule is the date in use exactly up to 2100-03-01 |
| `Times.YearLength` | src/bts_t_time.c:74-117 | the formula of POSIX.1-2017 Base Definitions section 4.16 gives every Gregorian year its 365 or 366 days |
| `Times.QuadDateUnique` | src/bts_t_time.c:74-117 | no second has two dates |
| `Times.MonthAndDay` | src/bts_t_time.c:92-105 | month and day of the month, both counted from 0, of every day of the year |
| `Times.TimeTextBack` | src/bts_t_time.c:47-67 | for every 32-bit time the printed text has 25 characters in the form 2018-12-04 T 03:54:15 UTC, and tells the second |
| `Times.PrettyPrintBtsTimeType` | src/bts_t_time.c:47-67 | the buffer holds the 25 characters of the date, in its form, and the second is read back from them |
| `Signature.EcdsaDerToSig` | src/eos_utils.c:202-250 | for all r and s below 2^256 in minimal DER the result is their two 32-byte forms |
| `Signature.DerLayout` | src/eos_utils.c:202-250 | the two integers as the signer leaves them, byte by byte |
| `Signature.CopyInteger` | src/eos_utils.c:207-225 | one integer: the leading zero is skipped, the rest padded on the left to 32 bytes |
| `Signature.CheckCanonical` | src/eos_utils.c:193-200 | the test on the first two bytes of each integer |
| `Signature.CanonicalIsRange` | src/eos_utils.c:193-200 | the test on the first bytes of an integer holds exactly when it lies in [2^247, 2^255) |
| `Signature.RangeIsLength` | src/eos_utils.c:193-200 | those are exactly the integers whose DER contents take 32 bytes |
| `Signature.CheckIsCanonical` | src/eos_utils.c:193-200 | check_canonical accepts exactly the signatures both of whose integers take 32 bytes in DER |
| `Signature.TouchTxOk` | src/app_ux_sign_tx.c:74-103 | whatever the signer answers, the loop ends on the first canonical answer and replies with its recovery byte and its two integers |
| `ParseOperations.ParseTransferOperation` | src/bts_parse_operations.c:202-222 | the two lines of the argument asked for, from the payload in the window; a throw exactly if it cannot be decoded |
| `ParseOperations.ParseLimitOrderCreateOperation` | src/bts_parse_operations.c:224-250 | the same for a limit order |
| `ParseOperations.ParseLimitOrderCancelOperation` | src/bts_parse_operations.c:252-269 | the same for the cancelling of an order |
| `ParseOperations.ParseAccountUpdateOperation` | src/bts_parse_operations.c:271-356 | the same for an account update, and the countdown: started by a header, one above the number of its parts, left alone by every part |
| `ParseOperations.ParseAccountUpgradeOperation` | src/bts_parse_operations.c:358-375 | the same for an account upgrade |
| `ParseOperations.ParseUnsupportedOperation` | src/bts_parse_operations.c:377-386 | the two screens of an operation that is known but not decoded |
| `ParseOperations.ParseUnknownOperation` | src/bts_parse_operations.c:388-397 | the two screens of an operation that is not known |
| `ParseOperations.PrintPermission` | src/bts_parse_operations.c:281-326 | the header of a permission and its five parts, by the countdown |
| `ParseOperations.PrintOptions` | src/bts_parse_operations.c:327-351 | the header of the options and their six parts, by the countdown |
| `ParseOperations.ShowAccount` | src/bts_t_account.c:42-79 | an account as its reserved name or its number |
| `Screens.DecodedIffCached` | src/bts_parse_operations.c:112-191 | an operation gets a parser that decodes fields exactly if the stream kept its payload |
| `Screens.PrintedTwice` | src/app_ui_display_sign_tx.c:177-185 | in every state, printing an argument twice leaves lines and countdown as printing it once does |
| `Screens.RedisplayIs` | src/app_ui_display_sign_tx.c:141-190 | a redisplay of all eight elements amounts to printing what the step calls for, once |
| `ScreenCycle.RoundAdvances` | src/main.c:451-488 | one tick and one redisplay lead from each screen of the review to the next one due |
| `ScreenCycle.WalkIndex` | src/main.c:451-488 | the place on the cycle advances by one with every round and is the number of rounds modulo the period |
| `ScreenCycle.IndexTells` | src/main.c:451-488 | no two screens share a place |
| `ScreenCycle.ReviewCycles` | src/main.c:451-488 | for every transaction whose payloads decode with all their lists inside, and any number of rounds, printing never fails and the display shows the screen in its place |
| `AlikeReviews.OperationDecided` | src/bts_parse_operations.c:202-397 | every screen of an operation that decodes with its lists inside is decided by its payload |
| `AlikeReviews.AlikeWalk` | src/main.c:451-488 | reviews of the same operations with the same payloads show the same screens in the same order, whatever lies in memory behind them |
| `ScreenCycle.EveryScreenAppears` | src/main.c:451-488 | from any moment on every screen of every operation, every part of every present permission and of present options included, is shown within one period, at exactly one round of it |
| `ScreenMachine.Review.UpdateOperationContent` | src/bts_parse_operations.c:103-200 | argument count, parser, and the two lines with the name of the operation |
| `ScreenMachine.Review.Tick` | src/main.c:451-488 | the whole new state after a tick of the timer |
| `ScreenMachine.Review.PrintTxOpArgument` | src/bts_stream.c:79-92 | the lines and the countdown after the argument of the current operation has been printed by its parser |
| `ScreenMachine.Review.Prepro` | src/app_ui_display_sign_tx.c:141-190 | whether the element is displayed, and the state after what is printed for it |
| `ScreenMachine.Review.Redisplay` | src/app_ui_display_sign_tx.c:141-190 | the state after all elements have been prepared in order |
| `ScreenMachine.Review.Round` | src/main.c:451-488 | one tick and its redisplay, from a screen of the cycle to the next |
| `ScreenMachine.ArrayHexstr` | src/eos_utils.c:76-83 | two hexadecimal digits for every byte, and a terminator |
| `ScreenMachine.PrintTxId` | src/bts_stream.c:72-77 | the buffer holds fifteen characters: two hexadecimal digits each for the bytes 0 to 2 of the hash, three dots, and two each for the bytes 17 to 19 |
| `Screens.TxIdTold` | src/bts_stream.c:72-77 | a reader of hexadecimal digits finds the bytes 0, 1, 2 and 17, 18, 19 of the hash in the text |
| `Screens.HexBack` | src/eos_utils.c:76-83 | every byte is read back from its two lower-case hexadecimal digits |
| `ScreenMachine.Review.Watch` | src/main.c:451-488 | the screens seen, one after the other, are those of the cycle |
| `EndToEnd.ParsedAsMeant` | src/bts_parse_operations.c:202-397 | a payload that lies in memory as it was serialized is parsed as the operation that was meant |
| `EndToEnd.ArgumentListed` | src/bts_parse_operations.c:202-397 | every argument and every part of it is shown as it was meant |
| `Restarts.RestartRejoins` | src/main.c:251-258 | a chunk behind a finished stream sets the timer back but not the operation and the countdown: wherever the review stood, it shows the confirmation, the transaction id, the name of the operation it was at, once for every part still to come and at least once, and is back on its cycle with the first argument of that operation |
| `Restarts.RestartShowsAll` | src/main.c:251-258 | after such a chunk too every screen is shown, within a period and the rounds it takes to come back to the cycle |
| `StreamReview.ShowableExactly` | src/bts_parse_operations.c:202-397 | what the values of a stream call for can be shown if and only if each supported payload among them decodes with all its lists inside |
| `StreamReview.FinishedReview` | src/bts_stream.c:309-491 | whoever sent it and in whatever chunks: a stream that finished, and so has left sizeBuffer nowhere, began with the fields of an acceptable transaction, whose values were hashed; the ids and payloads left for the display are those of the values; and if these can be shown, the screens are those that the values call for, round after round |
| `LiveReview.Serve` | src/main.c:187-261 | over any blocks whatever whose effect C defines, the stream state and the message hash of the machine go through the steps of the specification |
| `LiveReview.ReviewStays` | src/main.c:187-261 | nothing but a block that opens a request changes the content under review or the hash that a confirmation would sign |
| `LiveReview.ReviewHoldsExactly` | src/main.c:187-261 | after any blocks served during a review, what is shown is what a confirmation would sign if and only if none of them opened a request or the stream of the last request opened has finished; if none did, it is the same transaction still |
| `LiveReview.OpenedUnderReview` | src/main.c:193-214 | a block that shows the difference: it opens a request during a review, empties the content that the timer reads, and leaves the hash of the earlier transaction for a confirmation to sign |
| `LiveReview.ChunkBehindEnd` | src/main.c:187-261 | such a chunk is answered by a review again; content and message hash stay, and the display is started over where it stands |
| `LiveReview.WatchLive` | src/main.c:451-488 | ticks and blocks that reach neither stream nor content, in any order: every tick finds in the live content what the review began with, the screens seen are those of the cycle, one for every tick, the hash to be signed stays that of the content, and the path keeps its words and has the length that the last refused first block announced |
| `EndToEnd.ReceiveAndReview` | src/main.c:187-261 | the same for the machine as the source has it, with a stream that finishes, and so has left sizeBuffer nowhere: blocks are served; the hash to be signed is that of the values of the fields; and what the display then shows, read from the live content at every tick and whatever idle blocks arrive in between, is what these values call for |
| `EndToEnd.SignAndReview` | src/main.c:187-261 | the whole way: for every transaction of one to four operations that fits, what the device shows, read from the live content at every tick and whatever idle blocks arrive in between, is exactly the list of screens that the meant operations call for, in order and over again, what a confirmation would sign is the hash of its values, and the device holds the words of the meant path, with their length if and only if none of the blocks was a refused first one |
| `Examples.TransferBytes` | example-tx/tx_transfer.json:6-18 | the 26 bytes of the payload of this transfer |
| `Examples.TransferReviewed` | example-tx/tx_transfer.json:6-18 | the seven screens on which a transaction with it is reviewed, word for word, Amount 40 BTS and Fee 0.1042 BTS among them |
| `Examples.TransferAcceptable` | example-tx/tx_transfer.json:6-18 | the transaction is one of those that are received and shown |
| `Examples.OrderBytes` | example-tx/tx_limit_order_create.json:6-22 | the 36 bytes of the payload of this order |
| `Examples.OrderShown` | example-tx/tx_limit_order_create.json:6-22 | its six screens, word for word |
| `Examples.CancelShown` | example-tx/tx_limit_order_cancel.json:6-14 | the three screens of this cancelling |
| `Examples.UpgradeShown` | example-tx/tx_account_upgrade.json:6-12 | the three screens of this upgrade |
| `Examples.ListsShown` | example-tx/tx_account_update.json:9-34 | the account list and the vote list of this update as they are shown, and an empty list |
| `CutLists.ToldExactly` | src/bts_t_permission.c:134-175 | a list whose printed text is cut at 127 characters is taken for no other of as many entries if and only if the line ends behind the last number: something that follows the number is on it, or the number ends with the line and could not be any longer |
| `CutLists.ToldTells` | src/bts_t_permission.c:134-175 | such a list is read back, entry by entry, from what of it is on the line |
| `CutLists.NotTold` | src/bts_t_permission.c:134-175 | any other list looks like one that differs from it in the last number |
| `ToldLists.AccountsTell` | src/bts_t_permission.c:134-175 | two account lists that look alike are equal, if one of them is told |
| `ToldLists.KeysTell` | src/bts_t_permission.c:177-218 | the same for key lists, for every checksum function |
| `ToldLists.VotesTell` | src/bts_t_account_options.c:97-132 | the same for vote lists |
| `ToldLists.AccountsToldBySize` | src/bts_t_permission.c:134-175 | up to three accounts are always told, nine or more never |
| `ToldLists.OneKeyTold` | src/bts_t_permission.c:177-218 | a single key is always told |
| `ToldLists.VotesToldBySize` | src/bts_t_account_options.c:97-132 | up to eight votes are always told, twenty-two or more never |
| `TextsTell.TimeTells` | src/bts_t_time.c:47-67 | no two times have the same text |
| `TextsTell.AccountTells` | src/bts_t_account.c:42-79 | no two accounts have the same text |
| `TextsTell.AccountBack` | src/bts_t_account.c:42-79 | every account is read back from its text: six by a reserved name, all others by their number |
| `TextsTell.BoolTold` | src/bts_t_bool.c:46-60 | True and False are read as what they say |
| `TextsTell.LineHolds` | src/app_ui_displays.h:36-36 | the value line holds the first 127 characters of a text |
| `TextsTell.NameBack` | src/bts_parse_operations.c:44-95 | every name is read back, by a table of whole names, as the id of its operation, all unknown ones sharing one name |
| `ReviewTells.ScreensTell` | src/bts_parse_operations.c:103-397 | two reviews with the same screens are of as many operations, of the same kinds in the same order, with the same screens one by one; and an operation of which every list is told is the same in both, up to memo, extensions and undecoded payloads |
| `ReviewTells.ShownAlike` | src/bts_parse_operations.c:103-397 | memo, extensions, and the payload of an operation that is not decoded change no screen |
| `ReviewTells.ScreensTellExactly` | src/bts_parse_operations.c:103-397 | the screens determine the operations, up to memo, extensions and undecoded payloads, if and only if the value line ends behind the last number of every list of every account update |
| `ReviewTells.AlikeBeyondTheCut` | src/bts_t_account_options.c:108-132 | two updates that look alike beyond the cut: of twenty-two votes or more the last one can be another |

## Left out

- USB and APDU transport, menus, settings, the address screen, element tables and scrolling: device I/O.
- SHA-256, RIPEMD-160, HMAC, ECDSA and key derivation; `rng_rfc6979`, which rests on HMAC: foreign calls, as arbitrary functions.
- `i64toa`, `public_key_to_wif`, `prettyPrintBtsVarint48Type`, `prettyPrintBtsVarint32Type` and `prettyPrintBtsBoolTypeYesNo`:
  not used on the way from the stream to the screens.
- The graphical wallet, its network calls, broadcasting, history, and how `parse_bip32_path` splits its string.
- Serialization on the host side is not in the repository; the encoders here write what the decoders are documented to read.
- Signing.Device.HandleSign: a first block shorter than the path it announces, and a chunk that comes when a fault has left
  `tlvBuffer` full or when `sizeBuffer` has been overrun, because the source is undefined in C there.
- LiveReview.ReviewStays: a chunk behind a finished stream makes the source finalise both hash contexts once more, and what a
  foreign hash does then is not known; a context is the bytes it has absorbed here, and they stay.
- LiveReview.WatchLive: such a chunk, which starts the display over, is not among the idle blocks (what it does is in
  `LiveReview.ChunkBehindEnd` and `Restarts.RestartRejoins`), and neither are the other instructions.
- ReviewTells.ScreensTellExactly: of the transaction id only the first and last three of twenty bytes are shown; the screens
  compared are of one id.
- Which of two error codes a decoder throws: Overflow or Exception may depend on bytes behind the window.
- The fields a decoder has already filled in when it throws.
- The display of a list whose 32-bit length product has wrapped around: the source would walk it for more than a hundred million rounds.
- HostEncoding.EncodeTlvTx: fields of 2^64 bytes or more, which no host can hold.
- Signing.LengthAsOpened: the public key instruction, which shares the memory of the path, is not among the blocks.
- Signing.GetSignatureFromNano: paths of 256 elements or more, whose count takes three hexadecimal digits.
- EndToEnd.ReceiveAndReview: a payload that cannot be decoded throws while it is displayed; what happens then is left out.
- The timer while no transaction has been read, when the source would take a remainder by zero.
- A tick that comes between two elements of one redisplay: ticks are held back while a display is being drawn.
- Signature.TouchTxOk: the loop of the source has no bound, so the answers are given as a list that holds a canonical one.
- The reply that carries the signature after the confirmation: it is not part of the chunk loop of the host.
- EndToEnd.SignAndReview: says nothing of the buttons, whose effects are outside the model.
