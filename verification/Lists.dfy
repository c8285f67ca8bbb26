/** The list printers: what they leave in a buffer of any size is the beginning of the whole list, terminated. */
module Lists {
  import opened Numerals
  import opened Outcomes
  import opened CText
  import opened Codec
  import opened CodecRoundTrip
  import CodecMachine
  import KeyText
  import Varint

  // ---- the simple rendering ----

  function AccountAuthText(a: AccountAuth): string {
    "[1.2." + Decimal(a.accountId) + ", w: " + Decimal(a.weight) + "]"
  }

  function KeyAuthText(a: KeyAuth, ripemd: KeyText.Ripemd160): string {
    "[" + (if |a.pubkey| == 33 then KeyText.Text(a.pubkey, ripemd) else "") + ", w: " + Decimal(a.weight) + "]"
  }

  function VoteText(vote: nat): string {
    Decimal(vote % 256) + ":" + Decimal(vote / 256)
  }

  /** Each of the first n items behind the one before it; a blank behind the last keeps the display tidy. */
  function Listed(items: seq<string>, n: nat): string {
    if n == 0 || n > |items| then ""
    else Listed(items, n - 1) + items[n - 1] + (if n == |items| then " " else ",  ")
  }

  function Rendered(items: seq<string>): string {
    if items == [] then "(None)" else Listed(items, |items|)
  }

  // ---- what the arrays hold ----

  /** The records that can be read from w, up to n of them. */
  function Records(w: seq<byte>, n: nat): seq<AccountAuth> {
    if n == 0 then [] else
      match AccountAuthIn(w)
      case None => []
      case Some((a, rest)) => [a] + Records(rest, n - 1)
  }

  function AccountsOf(mem: Memory, first: nat, n: nat): seq<AccountAuth> {
    Records(Window(mem, first, WHOLE), n)
  }

  function KeyOf(mem: Memory, at: nat): KeyAuth {
    KeyAuth(Window(mem, at, KEY_SIZE), Little(Window(mem, at + KEY_SIZE, 2)))
  }

  /** The offset of a record is a 32-bit product. */
  function KeysOf(mem: Memory, first: nat, n: nat): seq<KeyAuth> {
    seq(n, i requires 0 <= i < n => KeyOf(mem, first + i * KEY_AUTH_SIZE % UINT32))
  }

  function VotesOf(mem: Memory, first: nat, n: nat): seq<nat> {
    seq(n, i requires 0 <= i < n => Little(Window(mem, first + i * VOTE_SIZE % UINT32, VOTE_SIZE)))
  }

  function AccountTexts(auths: seq<AccountAuth>): seq<string> {
    seq(|auths|, i requires 0 <= i < |auths| => AccountAuthText(auths[i]))
  }

  function KeyTexts(auths: seq<KeyAuth>, ripemd: KeyText.Ripemd160): seq<string> {
    seq(|auths|, i requires 0 <= i < |auths| => KeyAuthText(auths[i], ripemd))
  }

  function VoteTexts(votes: seq<nat>): seq<string> {
    seq(|votes|, i requires 0 <= i < |votes| => VoteText(votes[i]))
  }

  /** Rescanning from the start ends on the record that one pass over the list meets there. */
  lemma {:induction false} SeekIsRecord(w: seq<byte>, before: AccountAuth, k: nat, n: nat)
    requires k <= n
    ensures SeekIn(w, before, k).Some? <==> |Records(w, n)| >= k
    ensures SeekIn(w, before, k).Some? && k > 0 ==> SeekIn(w, before, k).value.0 == Records(w, n)[k - 1]
    decreases k
  {
    hide AccountAuthIn, SeekIn, Records;
    SeekStep(w, before, k);
    RecordsStep(w, n);
    if k > 0 && AccountAuthIn(w).Some? {
      var next := AccountAuthIn(w).value;
      SeekIsRecord(next.1, next.0, k - 1, n - 1);
      SeekStep(next.1, next.0, k - 1);
    }
  }

  lemma SeekStep(w: seq<byte>, before: AccountAuth, k: nat)
    ensures SeekIn(w, before, k) ==
      if k == 0 then Some((before, w))
      else if AccountAuthIn(w).None? then None
      else SeekIn(AccountAuthIn(w).value.1, AccountAuthIn(w).value.0, k - 1)
  {
    hide AccountAuthIn;
  }

  lemma RecordsStep(w: seq<byte>, n: nat)
    ensures Records(w, n) ==
      if n == 0 || AccountAuthIn(w).None? then []
      else [AccountAuthIn(w).value.0] + Records(AccountAuthIn(w).value.1, n - 1)
  {
    hide AccountAuthIn;
  }

  lemma {:induction false} RecordsFit(w: seq<byte>, n: nat)
    ensures |Records(w, n)| <= n && forall a <- Records(w, n) :: a.accountId < Varint.BOUND48
    decreases n
  {
    hide AccountAuthIn;
    if n > 0 && AccountAuthIn(w).Some? {
      IdFits(w);
      RecordsFit(AccountAuthIn(w).value.1, n - 1);
    }
  }

  lemma IdFits(w: seq<byte>)
    ensures AccountAuthIn(w).Some? ==> AccountAuthIn(w).value.0.accountId < Varint.BOUND48
  {
  }

  // ---- the printers ----

  lemma IdLength(id: nat)
    requires id < Varint.BOUND48
    ensures |Decimal(id)| <= 20
  {
    hide Decimal, Pow;
    TwoToThe48();
    DecimalLength(id, 20);
  }

  lemma TwoToThe48()
    ensures Pow(10, 20) > Varint.BOUND48
  {
    assert Pow(10, 5) == 10 * (10 * (10 * (10 * (10 * Pow(10, 0)))));
    PowAdd(10, 5, 5);
    PowAdd(10, 10, 10);
  }

  /** The text of a number in a scratch buffer, as `%s` reads it. */
  method DecimalInScratch(v: nat, size: nat) returns (s: string)
    requires |Decimal(v)| < size
    ensures s == Decimal(v)
  {
    var tmpStr := new char[size];
    Ui64toa(v, tmpStr, 0);
    var n := Strlen(tmpStr, 0, Decimal(v));
    return tmpStr[..n];
  }

  method PrettyPrintBtsAccountAuth(auth: AccountAuth, buffer: array<char>, at: nat, bufferLength: nat)
    returns (written: nat)
    requires auth.accountId < Varint.BOUND48 && 0 < bufferLength && at + bufferLength <= buffer.Length
    modifies buffer
    ensures var s := Cut(AccountAuthText(auth), bufferLength - 1); IsText(buffer, at, s) && written == |s|
    ensures OnlyWithin(buffer, at, at + bufferLength)
  {
    hide Decimal, Cut;
    NothingListed([], bufferLength - 1);
    written := 0;
    assert "" + "[1.2." == "[1.2.";
    written := Append(buffer, at, bufferLength, written, "[1.2.", "");
    IdLength(auth.accountId);
    var tmpStr := DecimalInScratch(auth.accountId, 24);
    DecimalNoEnd(auth.accountId);
    DecimalNoEnd(auth.weight);
    written := Append(buffer, at, bufferLength, written, tmpStr, "[1.2.");
    var weight := ", w: " + Decimal(auth.weight) + "]";
    assert "[1.2." + tmpStr + weight == AccountAuthText(auth);
    written := Append(buffer, at, bufferLength, written, weight, "[1.2." + tmpStr);
  }

  method PrettyPrintBtsKeyAuth(auth: KeyAuth, buffer: array<char>, at: nat, bufferLength: nat,
                               ripemd: KeyText.Ripemd160)
    returns (written: nat)
    requires |auth.pubkey| == 33 && 0 < bufferLength && at + bufferLength <= buffer.Length
    modifies buffer
    ensures var s := Cut(KeyAuthText(auth, ripemd), bufferLength - 1); IsText(buffer, at, s) && written == |s|
    ensures OnlyWithin(buffer, at, at + bufferLength)
  {
    hide Decimal, KeyText.Text, Cut;
    NothingListed([], bufferLength - 1);
    written := 0;
    assert "" + "[" == "[";
    written := Append(buffer, at, bufferLength, written, "[", "");
    var tmpStr := KeyInScratch(auth.pubkey, ripemd);
    DecimalNoEnd(auth.weight);
    written := Append(buffer, at, bufferLength, written, tmpStr, "[");
    var weight := ", w: " + Decimal(auth.weight) + "]";
    assert "[" + tmpStr + weight == KeyAuthText(auth, ripemd);
    written := Append(buffer, at, bufferLength, written, weight, "[" + tmpStr);
  }

  /** The text of a key in a scratch buffer of 56 characters, as `%s` reads it. */
  method KeyInScratch(key: KeyText.Key, ripemd: KeyText.Ripemd160) returns (s: string)
    ensures s == KeyText.Text(key, ripemd) && NoEnd(s)
  {
    hide KeyText.Text;
    var tmpStr := new char[56];
    var _ := KeyText.PrettyPrintPublicKey(key, tmpStr, ripemd);
    KeyText.TextNoEnd(key, ripemd);
    var n := Strlen(tmpStr, 0, KeyText.Text(key, ripemd));
    return tmpStr[..n];
  }

  method PrettyPrintBtsVoteType(vote: nat, buffer: array<char>, at: nat, bufferLength: nat) returns (written: nat)
    requires 0 < bufferLength && at + bufferLength <= buffer.Length
    modifies buffer
    ensures var s := Cut(VoteText(vote), bufferLength - 1); IsText(buffer, at, s) && written == |s|
    ensures OnlyWithin(buffer, at, at + bufferLength)
  {
    hide Decimal;
    DecimalNoEnd(vote % 256);
    DecimalNoEnd(vote / 256);
    Snprintf(buffer, at, bufferLength, VoteText(vote));
    written := Strlen(buffer, at, Cut(VoteText(vote), bufferLength - 1));
  }

  /** The buffer holds the beginning of the first n items. */
  predicate SoFar(buffer: array<char>, at: nat, bufferLength: nat, items: seq<string>, n: nat, written: nat)
    reads buffer
  {
    var s := Cut(Listed(items, n), if bufferLength > 0 then bufferLength - 1 else 0);
    && 0 < bufferLength && at + bufferLength <= buffer.Length && |s| < bufferLength
    && HasText(buffer, at, s) && written == |s| && (n > 0 ==> IsText(buffer, at, s))
  }

  lemma NothingYet(buffer: array<char>, at: nat, bufferLength: nat, items: seq<string>)
    requires 0 < bufferLength && at + bufferLength <= buffer.Length
    ensures SoFar(buffer, at, bufferLength, items, 0, 0)
  {
    assert buffer[at..at] == "";
  }

  lemma AllDone(buffer: array<char>, at: nat, bufferLength: nat, items: seq<string>, written: nat)
    requires SoFar(buffer, at, bufferLength, items, |items|, written) && items != []
    ensures var s := Cut(Rendered(items), bufferLength - 1); IsText(buffer, at, s) && written == |s|
  {
  }

  /** An item has been printed behind the first n; then its separator. */
  method Separate(buffer: array<char>, at: nat, bufferLength: nat, before: nat, ghost items: seq<string>, n: nat,
                  last: bool)
    returns (written: nat)
    requires n < |items| && last == (n + 1 == |items|)
    requires 0 < bufferLength && at + bufferLength <= buffer.Length
    requires HasText(buffer, at, Cut(Listed(items, n), bufferLength - 1))
    requires before == |Cut(Listed(items, n), bufferLength - 1)|
    requires before < bufferLength && IsText(buffer, at + before, Cut(items[n], bufferLength - before - 1))
    modifies buffer
    ensures SoFar(buffer, at, bufferLength, items, n + 1, written)
    ensures OnlyWithin(buffer, at, at + bufferLength)
  {
    hide Cut;
    ghost var x := Listed(items, n);
    CutAppend(x, items[n], bufferLength - 1);
    Joined(buffer, at, Cut(x, bufferLength - 1), Cut(items[n], bufferLength - before - 1));
    written := Strlen(buffer, at, Cut(x + items[n], bufferLength - 1));
    if !last {
      written := Append(buffer, at, bufferLength, written, ",  ", x + items[n]);
    } else {
      written := Append(buffer, at, bufferLength, written, " ", x + items[n]);
    }
    CutAppend(Listed(items, n + 1), "", bufferLength - 1);
  }

  method AccountItem(auth: AccountAuth, buffer: array<char>, at: nat, bufferLength: nat, before: nat,
                     ghost items: seq<string>, n: nat, last: bool)
    returns (written: nat)
    requires SoFar(buffer, at, bufferLength, items, n, before) && auth.accountId < Varint.BOUND48
    requires n < |items| && items[n] == AccountAuthText(auth) && last == (n + 1 == |items|)
    modifies buffer
    ensures SoFar(buffer, at, bufferLength, items, n + 1, written) && OnlyWithin(buffer, at, at + bufferLength)
  {
    hide Cut, Listed, AccountAuthText;
    ghost var front := buffer[at..at + before];
    var _ := PrettyPrintBtsAccountAuth(auth, buffer, at + before, bufferLength - before);
    assert buffer[at..at + before] == front;
    written := Separate(buffer, at, bufferLength, before, items, n, last);
  }

  method KeyItem(auth: KeyAuth, buffer: array<char>, at: nat, bufferLength: nat, before: nat,
                 ghost items: seq<string>, n: nat, last: bool, ripemd: KeyText.Ripemd160)
    returns (written: nat)
    requires SoFar(buffer, at, bufferLength, items, n, before) && |auth.pubkey| == 33
    requires n < |items| && items[n] == KeyAuthText(auth, ripemd) && last == (n + 1 == |items|)
    modifies buffer
    ensures SoFar(buffer, at, bufferLength, items, n + 1, written) && OnlyWithin(buffer, at, at + bufferLength)
  {
    hide Cut, Listed, KeyAuthText;
    ghost var front := buffer[at..at + before];
    var _ := PrettyPrintBtsKeyAuth(auth, buffer, at + before, bufferLength - before, ripemd);
    assert buffer[at..at + before] == front;
    written := Separate(buffer, at, bufferLength, before, items, n, last);
  }

  method VoteItem(vote: nat, buffer: array<char>, at: nat, bufferLength: nat, before: nat,
                  ghost items: seq<string>, n: nat, last: bool)
    returns (written: nat)
    requires SoFar(buffer, at, bufferLength, items, n, before)
    requires n < |items| && items[n] == VoteText(vote) && last == (n + 1 == |items|)
    modifies buffer
    ensures SoFar(buffer, at, bufferLength, items, n + 1, written) && OnlyWithin(buffer, at, at + bufferLength)
  {
    hide Cut, Listed, VoteText;
    ghost var front := buffer[at..at + before];
    var _ := PrettyPrintBtsVoteType(vote, buffer, at + before, bufferLength - before);
    assert buffer[at..at + before] == front;
    written := Separate(buffer, at, bufferLength, before, items, n, last);
  }

  method PrintNone(buffer: array<char>, at: nat, bufferLength: nat) returns (written: nat)
    requires 0 < bufferLength && at + bufferLength <= buffer.Length
    modifies buffer
    ensures var s := Cut("(None)", bufferLength - 1); IsText(buffer, at, s) && written == |s|
    ensures OnlyWithin(buffer, at, at + bufferLength)
  {
    Snprintf(buffer, at, bufferLength, "(None)");
    written := Strlen(buffer, at, Cut("(None)", bufferLength - 1));
  }

  lemma NoItems()
    ensures Rendered([]) == "(None)"
  {
  }

  lemma NothingListed(items: seq<string>, n: nat)
    ensures Cut(Listed(items, 0), n) == Cut("", n) == "" && NoEnd("")
  {
  }

  /** Rescan the list up to record i. */
  method ReadAccount(mem: Memory, first: nat, i: nat, ghost count: nat) returns (r: Result<AccountAuth>)
    requires i < count
    ensures r.Ok? <==> i < |AccountsOf(mem, first, count)|
    ensures r.Ok? ==> r.value == AccountsOf(mem, first, count)[i]
  {
    hide Window, AccountAuthIn, Records;
    SeekIsRecord(Window(mem, first, WHOLE), NO_AUTH, i + 1, count);
    var auth :- CodecMachine.SeekDeserializeBtsAccountAuthType(mem, first, WHOLE, NO_AUTH, i + 1);
    return Ok(auth.0);
  }

  /**
   * The list of accounts. It is thrown out of exactly if one of the records cannot be read; otherwise the buffer holds
   * the beginning of the rendering of all records.
   */
  method PrettyPrintBtsAccountAuthsList(mem: Memory, first: nat, count: nat, buffer: array<char>, at: nat,
                                        bufferLength: nat)
    returns (r: Result<nat>)
    requires 0 < bufferLength && at + bufferLength <= buffer.Length
    modifies buffer
    ensures r.Ok? <==> SeekIn(Window(mem, first, WHOLE), NO_AUTH, count).Some?
    ensures r.Ok? ==>
      var s := Cut(Rendered(AccountTexts(AccountsOf(mem, first, count))), bufferLength - 1);
      IsText(buffer, at, s) && r == Ok(|s|)
    ensures OnlyWithin(buffer, at, at + bufferLength)
  {
    hide Cut, AccountAuthText, Window, AccountAuthIn, Rendered, SoFar;
    ghost var w := Window(mem, first, WHOLE);
    ghost var auths := Records(w, count);
    ghost var items := seq(count, i requires 0 <= i < count => if i < |auths| then AccountAuthText(auths[i]) else "");
    var written: nat := 0;
    SeekIsRecord(w, NO_AUTH, count, count);
    RecordsFit(w, count);
    assert |auths| == count ==> items == AccountTexts(auths);
    if count == 0 {
      NoItems();
      written := PrintNone(buffer, at, bufferLength);
    } else {
      NothingYet(buffer, at, bufferLength, items);
      for i := 0 to count
        invariant i <= |auths|
        invariant SoFar(buffer, at, bufferLength, items, i, written)
        invariant OnlyWithin(buffer, at, at + bufferLength)
      {
        var tmpAccountAuth := ReadAccount(mem, first, i, count);
        if tmpAccountAuth.Throw? {
          return Throw(tmpAccountAuth.error);
        }
        written := AccountItem(tmpAccountAuth.value, buffer, at, bufferLength, written, items, i, i + 1 == count);
      }
      AllDone(buffer, at, bufferLength, items, written);
    }
    return Ok(written);
  }

  /** A read with a window of -1 bytes does not fail. */
  method ReadKey(mem: Memory, at: nat) returns (auth: KeyAuth)
    ensures auth == KeyOf(mem, at) && |auth.pubkey| == 33
  {
    hide KeyOf, Window, KeyAuthIn;
    KeyThere(mem, at, WHOLE);
    var r := CodecMachine.DeserializeBtsKeyAuthType(mem, at, WHOLE);
    auth := r.value.0;
  }

  method ReadVote(mem: Memory, at: nat) returns (vote: nat)
    ensures vote == Little(Window(mem, at, VOTE_SIZE))
  {
    hide Little, Window;
    LittleWindow(mem, at, WHOLE, VOTE_SIZE);
    var r := CodecMachine.DeserializeLittle(mem, at, WHOLE, VOTE_SIZE);
    vote := r.value.0;
  }

  /** The list of keys, which lie at a fixed stride. */
  method PrettyPrintBtsKeyAuthsList(mem: Memory, first: nat, count: nat, buffer: array<char>, at: nat,
                                    bufferLength: nat, ripemd: KeyText.Ripemd160)
    returns (written: nat)
    requires 0 < bufferLength && at + bufferLength <= buffer.Length
    modifies buffer
    ensures var s := Cut(Rendered(KeyTexts(KeysOf(mem, first, count), ripemd)), bufferLength - 1);
      IsText(buffer, at, s) && written == |s|
    ensures OnlyWithin(buffer, at, at + bufferLength)
  {
    hide Cut, KeyAuthText, Window, KeyAuthIn, Rendered, SoFar, KeyOf;
    ghost var keys := KeysOf(mem, first, count);
    ghost var items := KeyTexts(keys, ripemd);
    written := 0;
    if count == 0 {
      NoItems();
      written := PrintNone(buffer, at, bufferLength);
    } else {
      NothingYet(buffer, at, bufferLength, items);
      for i := 0 to count
        invariant SoFar(buffer, at, bufferLength, items, i, written)
        invariant OnlyWithin(buffer, at, at + bufferLength)
      {
        var offset := i * KEY_AUTH_SIZE % UINT32;
        var tmpAuth := ReadKey(mem, first + offset);
        written := KeyItem(tmpAuth, buffer, at, bufferLength, written, items, i, i + 1 == count, ripemd);
      }
      AllDone(buffer, at, bufferLength, items, written);
    }
  }

  /** With a window that long, a record of a fixed size is always there. */
  lemma KeyThere(mem: Memory, at: nat, size: nat)
    requires size >= KEY_AUTH_SIZE
    ensures KeyAuthIn(Window(mem, at, size))
         == Some((KeyOf(mem, at), Window(mem, at + KEY_AUTH_SIZE, size - KEY_AUTH_SIZE)))
    ensures |KeyOf(mem, at).pubkey| == 33
  {
    hide Little, Window;
    CodecMachine.BytesWindow(mem, at, size, KEY_SIZE);
    LittleWindow(mem, at + KEY_SIZE, size - KEY_SIZE, 2);
    CodecMachine.WindowLengths(mem);
  }

  lemma LittleWindow(mem: Memory, at: nat, size: nat, n: nat)
    requires n <= size
    ensures LittleIn(Window(mem, at, size), n) == Some((Little(Window(mem, at, n)), Window(mem, at + n, size - n)))
  {
    hide Little;
    CodecMachine.WindowTail(mem, at, size, n);
  }

  /** The list of votes. */
  method PrettyPrintBtsVotesList(mem: Memory, first: nat, count: nat, buffer: array<char>, at: nat, bufferLength: nat)
    returns (written: nat)
    requires 0 < bufferLength && at + bufferLength <= buffer.Length
    modifies buffer
    ensures var s := Cut(Rendered(VoteTexts(VotesOf(mem, first, count))), bufferLength - 1);
      IsText(buffer, at, s) && written == |s|
    ensures OnlyWithin(buffer, at, at + bufferLength)
  {
    hide Cut, VoteText, Window, Little, Rendered, SoFar;
    ghost var votes := VotesOf(mem, first, count);
    ghost var items := VoteTexts(votes);
    written := 0;
    if count == 0 {
      NoItems();
      written := PrintNone(buffer, at, bufferLength);
    } else {
      NothingYet(buffer, at, bufferLength, items);
      for i := 0 to count
        invariant SoFar(buffer, at, bufferLength, items, i, written)
        invariant OnlyWithin(buffer, at, at + bufferLength)
      {
        var offset := i * VOTE_SIZE % UINT32;
        var tmpVote := ReadVote(mem, first + offset);
        written := VoteItem(tmpVote, buffer, at, bufferLength, written, items, i, i + 1 == count);
      }
      AllDone(buffer, at, bufferLength, items, written);
    }
  }

  // ---- the arrays of a decoded value ----

  /** The elements that a permission's addresses lead to are the elements that were encoded. */
  lemma ShownLists(mem: Memory, d: Permission, p: PermissionValue)
    requires ShowsPermission(mem, d, p)
    ensures SeekIn(Window(mem, d.firstAccountAuth, WHOLE), NO_AUTH, d.numAccountAuths).Some?
    ensures AccountsOf(mem, d.firstAccountAuth, d.numAccountAuths) == p.accounts
    ensures KeysOf(mem, d.firstKeyAuth, d.numKeyAuths) == p.keys
  {
    hide Window, KeyAuthIn, KeyOf;
    var w, n := Window(mem, d.firstAccountAuth, WHOLE), |p.accounts|;
    SeekIsRecord(w, NO_AUTH, n, n);
    if n > 0 {
      assert AccountAt(mem, d.firstAccountAuth, n - 1 + 1, p.accounts[n - 1]);
    }
    forall i | 0 <= i < n ensures i < |Records(w, n)| && Records(w, n)[i] == p.accounts[i] {
      assert AccountAt(mem, d.firstAccountAuth, i + 1, p.accounts[i]);
      SeekIsRecord(w, NO_AUTH, i + 1, n);
      assert Yields(SeekIn(w, NO_AUTH, i + 1), p.accounts[i]);
    }
    RecordsFit(w, n);
    forall i | 0 <= i < |p.keys| ensures KeysOf(mem, d.firstKeyAuth, d.numKeyAuths)[i] == p.keys[i] {
      assert KeyAt(mem, d.firstKeyAuth, i, p.keys[i]);
      KeyThere(mem, d.firstKeyAuth + i * KEY_AUTH_SIZE, WHOLE);
    }
  }

  lemma ShownVotes(mem: Memory, d: AccountOptions, o: OptionsValue)
    requires ShowsOptions(mem, d, o)
    ensures VotesOf(mem, d.votes, d.numVotes) == o.votes
  {
    hide Window, Little, ShowsExtensions;
    forall i | 0 <= i < |o.votes| ensures VotesOf(mem, d.votes, d.numVotes)[i] == o.votes[i] {
      assert VoteAt(mem, d.votes, i, o.votes[i]);
      LittleWindow(mem, d.votes + i * VOTE_SIZE, WHOLE, VOTE_SIZE);
    }
  }
}
