/** Exactly which streams of fields the device accepts, and how many operations it knows of on the way. */
module Finishing {
  import opened Numerals
  import opened StreamSpec
  import opened StreamChunks
  import opened StreamFields
  import opened StreamMeaning
  import opened Tlv
  import Varint

  // ---- the values of a transaction ----

  /** The cache that the supported ones among the first n payloads take. */
  function CacheUse(vs: seq<seq<byte>>, n: nat): nat {
    if n == 0 then 0 else CacheUse(vs, n - 1) + KeptLength(vs, n - 1)
  }

  function KeptLength(vs: seq<seq<byte>>, i: nat): nat {
    if 6 + 2 * i < |vs| && Supported(Count(vs[5 + 2 * i])) then |vs[6 + 2 * i]| else 0
  }

  /**
   * The first values of a transaction, as far as the device takes them: one to four operations are declared and no
   * more of them are there, every number takes at most twelve bytes and can be read, the supported payloads fit the
   * cache together, and no extension is announced.
   */
  ghost predicate Taken(vs: seq<seq<byte>>) {
    |vs| > 4 ==>
      && Readable(vs[4])
      && var n := Count(vs[4]);
      && 1 <= n <= 4 && |vs| <= 6 + 2 * n
      && (forall i :: 0 <= i < n && 5 + 2 * i < |vs| ==> Readable(vs[5 + 2 * i]))
      && CacheUse(vs, n) <= 768
      && (|vs| == 6 + 2 * n ==> Readable(vs[5 + 2 * n]) && Count(vs[5 + 2 * n]) == 0)
  }

  /** All values of a transaction that the device accepts. */
  ghost predicate Finishes(vs: seq<seq<byte>>) {
    |vs| > 4 && |vs| == 6 + 2 * Count(vs[4]) && Taken(vs)
  }

  lemma {:induction false} CacheUseMono(vs: seq<seq<byte>>, m: nat, n: nat)
    requires m <= n
    ensures CacheUse(vs, m) <= CacheUse(vs, n)
    decreases n
  {
    if m < n {
      CacheUseMono(vs, m, n - 1);
    }
  }

  /** In a valid snapshot a slice is as long as the distance between its offsets. */
  lemma SliceLength(s: Snapshot, i: nat)
    requires Valid(s) && i < Completed(s)
    ensures |Slice(s, i)| == s.offsets[i] - Start(s.offsets, i)
    ensures Start(s.offsets, i + 1) == s.offsets[i] <= CACHE_SIZE
  {
    assert Start(s.offsets, i) <= s.offsets[i] <= CACHE_SIZE;
  }

  /** The cache in use before an operation is what the supported payloads before it take. */
  lemma {:induction false} StartIsSum(s: Snapshot, vs: seq<seq<byte>>, all: seq<seq<byte>>, j: nat)
    requires Agrees(s, vs) && vs <= all && j <= Completed(s)
    ensures Start(s.offsets, j) == CacheUse(all, j)
  {
    hide Valid, Slice, HashesAgree, PhaseAgrees, Count, Readable, Supported;
    if j > 0 {
      StartIsSum(s, vs, all, j - 1);
      assert IdAgrees(s, vs, j - 1) && PayloadAgrees(s, vs, j - 1);
      SliceLength(s, j - 1);
    }
  }

  // ---- a run over the fields of such a transaction ----

  /** The value m is about to take fits and is well formed for its state. */
  ghost predicate Welcome(m: Snapshot, v: seq<byte>) {
    && (SizeField(m.state) ==> Readable(v))
    && (m.state == OperationListSize ==> TX_MIN_OPERATIONS <= Count(v) <= TX_MAX_OPERATIONS)
    && (m.state == TxExtensionListSize ==> Count(v) == 0)
    && (m.state == OpSimplePayload ==> Start(m.offsets, m.opCount - 1) + |v| <= CACHE_SIZE)
  }

  lemma WelcomeCompletes(m: Snapshot, v: seq<byte>)
    requires Valid(m) && m.processing && m.fieldPos == 0 && m.fieldLength == |v| && !ByteFree(m.state)
    requires Welcome(m, v)
    ensures Dispatch(m, v).status == Processing
  {
    DispatchWhole(m, v);
    if SizeField(m.state) {
      PaddedSize(m, v);
      hide Padded, Varint.Unpacked32, Splice, Valid, Dispatch;
    } else {
      assert m.state !in {NoState, OpComplexPayload, OpComplexDone, Done};
      hide Splice, Valid, Dispatch;
    }
  }

  lemma WelcomeTakes(s: Snapshot, f: Field)
    requires Boundary(s) && s.state != Done && WellFormed(f) && Welcome(Entered(s, f), f.value)
    ensures TakeField(s, f).status == Processing
  {
    hide Welcome, WellFormed, Entered, Dispatch, TakeField, Valid;
    EnteredValid(s, f);
    TakeIsDispatch(s, f);
    WelcomeCompletes(Entered(s, f), f.value);
  }

  /** How many operations a transaction declares, once this can be known. */
  function Declared(vs: seq<seq<byte>>): nat {
    if |vs| > 4 then Count(vs[4]) else 0
  }

  /** Where the machine stands after k of the values. */
  lemma PhaseOf(s: Snapshot, vs: seq<seq<byte>>, k: nat)
    requires Taken(vs) && k <= |vs| && Agrees(s, vs[..k])
    ensures s.state == Done <==> k > 4 && k == 6 + 2 * Declared(vs)
    ensures var n := Declared(vs);
      && (k < 4 ==> !SizeField(s.state) && !Payload(s.state) && !ByteFree(s.state))
      && (k == 4 ==> s.state == OperationListSize)
      && (5 <= k < 6 + 2 * n && k % 2 == 1 ==>
            ByteFree(s.state) && s.opCount == (k - 5) / 2 && s.remaining == n - s.opCount)
      && (5 <= k < 6 + 2 * n && k % 2 == 0 ==> Payload(s.state) && s.opCount == (k - 4) / 2 && 1 <= s.opCount <= n)
  {
    hide HashesAgree, OperationsAgree, Boundary, Readable, Count, CacheUse;
    assert k > 4 ==> vs[..k][4] == vs[4];
  }

  /** The payload of a supported operation still fits. */
  lemma PayloadWelcome(s: Snapshot, vs: seq<seq<byte>>, k: nat)
    requires Taken(vs) && k < |vs| && Agrees(s, vs[..k])
    requires Payload(s.state) && 1 <= s.opCount <= Declared(vs) && k == 4 + 2 * s.opCount
    ensures s.state == OpSimplePayload ==> Start(s.offsets, s.opCount - 1) + |vs[k]| <= CACHE_SIZE
  {
    hide Readable, Count, Slice, HashesAgree, PhaseAgrees;
    var i := s.opCount - 1;
    assert IdAgrees(s, vs[..k], i) && vs[..k][5 + 2 * i] == vs[5 + 2 * i];
    PendingSupported(s);
    hide Valid, CacheUse, Agrees;
    StartIsSum(s, vs[..k], vs, i);
    OneMoreKept(vs, i);
    CacheUseMono(vs, i + 1, Count(vs[4]));
  }

  lemma OneMoreKept(vs: seq<seq<byte>>, i: nat)
    ensures CacheUse(vs, i + 1) == CacheUse(vs, i) + KeptLength(vs, i)
  {
  }

  lemma PendingSupported(s: Snapshot)
    requires Valid(s) && Payload(s.state)
    ensures 1 <= s.opCount <= |s.opIds| && Completed(s) == s.opCount - 1
    ensures s.state == OpSimplePayload <==> Supported(s.opIds[s.opCount - 1])
  {
  }

  lemma FieldWelcome(s: Snapshot, vs: seq<seq<byte>>, k: nat, f: Field)
    requires Taken(vs) && k < |vs| && Agrees(s, vs[..k]) && f.value == vs[k]
    ensures s.state != Done && Welcome(Entered(s, f), f.value)
  {
    hide Agrees, Entered, Readable, Count, CacheUse;
    PhaseOf(s, vs, k);
    EnteredFacts(s, f);
    if k > 4 && k % 2 == 1 {
      assert k < 5 + 2 * Count(vs[4]) ==> Readable(vs[5 + 2 * ((k - 5) / 2)]);
    } else if k > 4 {
      PayloadWelcome(s, vs, k);
    }
  }

  /** Only the last field is in need of a byte of its own or behind it. */
  predicate Ends(fs: seq<Field>, rest: seq<byte>) {
    fs != [] ==> fs[|fs| - 1].value != [] || rest != []
  }

  lemma NotWaiting(s: Snapshot, fs: seq<Field>, k: nat, rest: seq<byte>)
    requires AllWellFormed(fs) && Ends(fs, rest) && k < |fs|
    ensures Closes(s, fs[k], FlatFields(fs[k + 1..]) + rest)
  {
    hide FlatFields;
    if k + 1 < |fs| {
      assert fs[k + 1..][0] == fs[k + 1];
      FlatNotEmpty(fs[k + 1..]);
    }
  }

  lemma FlatNotEmpty(fs: seq<Field>)
    requires fs != [] && WellFormed(fs[0])
    ensures |FlatFields(fs)| >= 2
  {
    hide TryDecode;
  }

  lemma TailOfFields(fs: seq<Field>, k: nat, rest: seq<byte>)
    requires k < |fs|
    ensures FlatFields(fs[k..]) + rest == Bytes(fs[k]) + (FlatFields(fs[k + 1..]) + rest)
  {
    hide Bytes;
    assert fs[k..][1..] == fs[k + 1..];
  }

  /** A field that is taken takes the run one value further. */
  lemma TakenField(s: Snapshot, vs: seq<seq<byte>>, f: Field, rest: seq<byte>)
    requires Agrees(s, vs) && s.state != Done && WellFormed(f) && Closes(s, f, rest)
    requires TakeField(s, f).status == Processing
    ensures Agrees(TakeField(s, f).snap, vs + [f.value])
    ensures Run(s, Bytes(f) + rest) == Run(TakeField(s, f).snap, rest)
  {
    assert Boundary(s);
    hide Run, TakeField, Agrees, Boundary, Closes, WellFormed, Valid;
    RunField(s, f, rest);
    TakeFieldAgrees(s, vs, f);
  }

  lemma AgreesBoundary(s: Snapshot, vs: seq<seq<byte>>)
    requires Agrees(s, vs)
    ensures Boundary(s) && Valid(s)
  {
  }

  /** One more field of a transaction that is taken. */
  lemma OneMore(fs: seq<Field>, s: Snapshot, k: nat, rest: seq<byte>)
    requires AllWellFormed(fs) && Taken(Values(fs)) && k < |fs| && Agrees(s, Values(fs)[..k])
    requires Closes(s, fs[k], FlatFields(fs[k + 1..]) + rest)
    ensures var t := TakeField(s, fs[k]).snap;
      && Agrees(t, Values(fs)[..k + 1])
      && Run(s, FlatFields(fs[k..]) + rest) == Run(t, FlatFields(fs[k + 1..]) + rest)
  {
    hide Taken, Agrees, Closes, Welcome, Entered, FlatFields, Run, TakeField, WellFormed, Bytes, Boundary, Valid;
    var vs := Values(fs);
    AgreesBoundary(s, vs[..k]);
    FieldWelcome(s, vs, k, fs[k]);
    WelcomeTakes(s, fs[k]);
    TakenField(s, vs[..k], fs[k], FlatFields(fs[k + 1..]) + rest);
    TailOfFields(fs, k, rest);
    assert vs[..k] + [fs[k].value] == vs[..k + 1];
  }

  /**
   * From any snapshot that agrees with the first k values, the fields with the others are read to their end, and what
   * follows them is read from a snapshot that agrees with all.
   */
  lemma {:induction false} ReadsOn(fs: seq<Field>, s: Snapshot, k: nat, rest: seq<byte>) returns (t: Snapshot)
    requires AllWellFormed(fs) && Taken(Values(fs)) && Ends(fs, rest)
    requires k <= |fs| && Agrees(s, Values(fs)[..k])
    ensures Agrees(t, Values(fs)) && Run(s, FlatFields(fs[k..]) + rest) == Run(t, rest)
    decreases |fs| - k
  {
    hide Taken, AllWellFormed, Ends, Run, TakeField, Agrees, FlatFields, Valid;
    var vs := Values(fs);
    AgreesBoundary(s, vs[..k]);
    if k == |fs| {
      t := s;
      NoFields(rest);
      assert vs[..k] == vs && fs[k..] == [];
    } else {
      NotWaiting(s, fs, k, rest);
      OneMore(fs, s, k, rest);
      t := ReadsOn(fs, TakeField(s, fs[k]).snap, k + 1, rest);
    }
  }

  /** A whole transaction is read to its end. */
  lemma ReadsAll(fs: seq<Field>, rest: seq<byte>)
    requires AllWellFormed(fs) && Finishes(Values(fs)) && Ends(fs, rest)
    ensures var r := FromStart(FlatFields(fs) + rest);
      r.status == Finished && r.rest == rest && Agrees(r.snap, Values(fs)) && r.snap.state == Done
  {
    hide Taken, AllWellFormed, Ends, Run, Agrees, FlatFields, Valid, Count;
    var vs := Values(fs);
    InitAgrees();
    InitValid();
    assert vs[..0] == [] && vs[..|vs|] == vs && fs[0..] == fs;
    var t := ReadsOn(fs, Init(), 0, rest);
    PhaseOf(t, vs, |vs|);
    AgreesBoundary(t, vs);
    NothingMore(t, rest);
  }

  lemma NoFields(input: seq<byte>)
    ensures FlatFields([]) + input == input
  {
  }

  // ---- a stream of fields can be read in one way only ----

  lemma SameHeader(h: seq<byte>, n: nat, x: seq<byte>, g: seq<byte>, m: nat, y: seq<byte>)
    requires IsHeader(h, n) && IsHeader(g, m) && h + x == g + y
    ensures h == g && n == m && x == y
  {
    hide TryDecode;
    var k := if |h| < |g| then |h| else |g|;
    assert h[..k] == (h + x)[..k] == g[..k];
    assert h[..|h|] == h && g[..|g|] == g;
    assert |h| == |g| == k;
    assert x == (h + x)[k..] && y == (g + y)[k..];
  }

  lemma SameField(f: Field, x: seq<byte>, g: Field, y: seq<byte>)
    requires WellFormed(f) && WellFormed(g) && Bytes(f) + x == Bytes(g) + y
    ensures f == g && x == y
  {
    hide IsHeader;
    assert Bytes(f) + x == f.header + (f.value + x) && Bytes(g) + y == g.header + (g.value + y);
    SameHeader(f.header, |f.value|, f.value + x, g.header, |g.value|, g.value + y);
    assert f.value == (f.value + x)[..|f.value|] && x == (f.value + x)[|f.value|..];
    assert g.value == (g.value + y)[..|g.value|] && y == (g.value + y)[|g.value|..];
  }

  /** A field that the device cannot read: its header announces a length of more than three bytes. */
  predicate TooLong(f: Field) {
    |f.header| >= 2 && f.header[1] >= 132
  }

  lemma NotLong(f: Field, x: seq<byte>, g: Field, y: seq<byte>)
    requires WellFormed(f) && Bytes(f) + x == Bytes(g) + y
    ensures !TooLong(g)
  {
    assert f.header[1] == (Bytes(f) + x)[1];
    assert |g.header| >= 2 ==> g.header[1] == (Bytes(g) + y)[1];
  }

  /** Whole fields are told apart from any fields that an encoder may have written. */
  lemma {:induction false} SameFields(fs: seq<Field>, gs: seq<Field>)
    requires AllWellFormed(fs) && FlatFields(fs) == FlatFields(gs)
    requires forall g <- gs :: WellFormed(g) || TooLong(g)
    ensures fs == gs
  {
    hide WellFormed, Bytes, TooLong;
    if fs != [] && gs != [] {
      NotLong(fs[0], FlatFields(fs[1..]), gs[0], FlatFields(gs[1..]));
      SameField(fs[0], FlatFields(fs[1..]), gs[0], FlatFields(gs[1..]));
      SameFields(fs[1..], gs[1..]);
      assert fs == [fs[0]] + fs[1..] && gs == [gs[0]] + gs[1..];
    } else if fs != [] {
      FlatNotEmpty(fs);
    } else if gs != [] {
      SomeHeader(gs[0]);
    }
  }

  lemma SomeHeader(f: Field)
    requires WellFormed(f) || TooLong(f)
    ensures |Bytes(f)| >= 2
  {
    hide TryDecode;
  }

  // ---- exactly the streams that finish ----

  lemma SameEnds(a: seq<byte>, b: seq<byte>, rest: seq<byte>)
    requires a + rest == b + rest
    ensures a == b
  {
    assert a == (a + rest)[..|a|] && b == (b + rest)[..|b|];
  }

  lemma ValuesEnd(fs: seq<Field>)
    requires Finishes(Values(fs))
    ensures fs != []
  {
  }

  lemma {:induction false} NoneKept(vs: seq<seq<byte>>, m: nat, n: nat)
    requires m <= n && 6 + 2 * m >= |vs|
    ensures CacheUse(vs, n) == CacheUse(vs, m)
    decreases n
  {
    if m < n {
      NoneKept(vs, m, n - 1);
    }
  }

  /** Whatever has been read in agreement is the beginning of a transaction that the device takes. */
  lemma AgreesTaken(s: Snapshot, vs: seq<seq<byte>>)
    requires Agrees(s, vs)
    ensures Taken(vs) && (s.state == Done ==> Finishes(vs))
  {
    hide Valid, Count, Readable, CacheUse, Slice, HashesAgree;
    if |vs| > 4 {
      AgreesCounts(s, vs);
      var n := Count(vs[4]);
      forall i | 0 <= i < n && 5 + 2 * i < |vs| ensures i < s.opCount ==> Readable(vs[5 + 2 * i]) {
        assert i < s.opCount ==> IdAgrees(s, vs, i);
      }
      NoneKept(vs, Completed(s), n);
      StartIsSum(s, vs, vs, Completed(s));
      StartsInside(s);
    }
  }

  /** How many values have been read for how many operations. */
  lemma AgreesCounts(s: Snapshot, vs: seq<seq<byte>>)
    requires Agrees(s, vs) && |vs| > 4
    ensures 0 <= Completed(s) <= s.opCount <= Count(vs[4]) <= TX_MAX_OPERATIONS && 6 + 2 * Completed(s) >= |vs| - 1
    ensures s.state == Done <==> |vs| == 6 + 2 * Count(vs[4])
    ensures if s.state == Done then Completed(s) == Count(vs[4])
            else |vs| <= 6 + 2 * Completed(s) && |vs| <= 5 + 2 * s.opCount
  {
    hide Count, Readable, OperationsAgree, HashesAgree;
  }

  lemma StartsInside(s: Snapshot)
    requires Valid(s) && 0 <= Completed(s)
    ensures Start(s.offsets, Completed(s)) <= CACHE_SIZE
  {
    if Completed(s) > 0 {
      SliceLength(s, Completed(s) - 1);
    }
  }

  /**
   * Exactly which streams finish: fields read from the start finish the transaction, with `rest` left unread, if and
   * only if their values make up an acceptable transaction, no number in it longer than twelve bytes, and the last
   * field is not waiting for a byte behind its header. Where a number is longer, the copy leaves sizeBuffer before
   * the stream can finish, and nothing is said about it.
   */
  lemma FinishesExactly(fs: seq<Field>, rest: seq<byte>)
    requires AllWellFormed(fs)
    ensures var r := FromStart(FlatFields(fs) + rest);
      && (Finishes(Values(fs)) && Ends(fs, rest) ==> r.status == Finished && r.rest == rest)
      && (r.status != Overrun ==>
            (r.status == Finished && r.rest == rest <==> Finishes(Values(fs)) && Ends(fs, rest)))
  {
    hide Finishes, Run, Agrees, FlatFields, WellFormed, Valid, Values;
    InitAgrees();
    InitValid();
    var input := FlatFields(fs) + rest;
    var r := FromStart(input);
    if r.status == Finished && r.rest == rest {
      var gs := FinishedRunAgrees(Init(), [], input);
      SameEnds(FlatFields(fs), FlatFields(gs), rest);
      SameFields(gs, fs);
      assert [] + Values(fs) == Values(fs);
      AgreesTaken(r.snap, Values(fs));
    }
    if Finishes(Values(fs)) && Ends(fs, rest) {
      ReadsAll(fs, rest);
    }
  }

  /**
   * If the last field is empty, the device is still waiting when it has read all of them; any byte more and it is
   * done.
   */
  lemma EmptyLast(fs: seq<Field>, b: byte)
    requires AllWellFormed(fs) && Finishes(Values(fs)) && fs[|fs| - 1].value == []
    ensures FromStart(FlatFields(fs)).status == Processing
    ensures FromStart(FlatFields(fs) + [b]).status == Finished && FromStart(FlatFields(fs) + [b]).rest == [b]
  {
    hide Finishes, FromStart, Run, FlatFields, WellFormed, Valid, Values;
    ValuesEnd(fs);
    ReadsAll(fs, [b]);
    FromStartConcat(FlatFields(fs), [b]);
    NotAlone(fs);
  }

  lemma NotAlone(fs: seq<Field>)
    requires AllWellFormed(fs) && fs != [] && fs[|fs| - 1].value == []
    ensures FromStart(FlatFields(fs)).status == Finished ==> FromStart(FlatFields(fs)).rest != []
  {
    hide Finishes, FromStart, FlatFields, WellFormed, Values;
    assert FlatFields(fs) + [] == FlatFields(fs);
    FinishesExactly(fs, []);
  }

  // ---- the operations known of in the middle of a stream ----

  predicate Going(r: Step) {
    r.status == Processing || r.status == Finished
  }

  /** Once the count has been read, no call changes the sum of the operations seen, due and to come. */
  lemma {:induction false} BudgetKept(s: Snapshot, input: seq<byte>)
    requires Valid(s) && Past(s.state) && Going(Run(s, input))
    ensures Past(Run(s, input).snap.state) && Budget(Run(s, input).snap) == Budget(s)
    decreases |input|, Rank(s), 1
  {
    hide Valid, Turn, ReadHeader;
    if s.state != Done && input != [] {
      if s.processing {
        BudgetInTurn(s, input);
      } else {
        HeaderValid(s, input[0]);
        HeaderBudget(s, input[0]);
        match ReadHeader(s, input[0])
        case Bad(t) =>
        case More(t) => BudgetKept(t, input[1..]);
        case Opened(t) => BudgetInTurn(t, input[1..]);
      }
    }
  }

  lemma HeaderBudget(s: Snapshot, b: byte)
    ensures ReadHeader(s, b).snap.state == s.state && Budget(ReadHeader(s, b).snap) == Budget(s)
  {
    hide TryDecode, Splice;
  }

  lemma {:induction false} BudgetInTurn(s: Snapshot, input: seq<byte>)
    requires Valid(s) && s.processing && Past(s.state) && Going(Turn(s, input))
    ensures Past(Turn(s, input).snap.state) && Budget(Turn(s, input).snap) == Budget(s)
    decreases |input|, Rank(s), 0
  {
    hide Valid, Turn, Dispatch, Budget, Past;
    TurnFrom(s, input);
    DispatchValid(s, input);
    var d := Dispatch(s, input);
    if d.status == Processing && d.rest != [] {
      BudgetKept(d.snap, d.rest);
    }
  }

  /** Behind the fifth field, the count it declared is what the operations seen, due and to come add up to. */
  lemma {:induction false} CountRead(s: Snapshot, vs: seq<seq<byte>>, input: seq<byte>)
    returns (fs: seq<Field>, tail: seq<byte>)
    requires Agrees(s, vs) && |vs| <= 5 && s.state != Done
    requires Going(Run(s, input)) && Past(Run(s, input).snap.state)
    ensures AllWellFormed(fs) && input == FlatFields(fs) + tail && |vs + Values(fs)| == 5
    ensures Readable((vs + Values(fs))[4]) && Budget(Run(s, input).snap) == Count((vs + Values(fs))[4])
    decreases |input|
  {
    hide Run, TakeField, Agrees, FlatFields, WellFormed, Boundary, Readable, Count, Budget;
    AgreesBoundary(s, vs);
    FirstPhases(s, vs);
    if |vs| == 5 {
      BudgetKept(s, input);
      fs, tail := [], input;
      assert vs + Values(fs) == vs;
      NoFields(input);
    } else {
      var f, rest := PassedField(s, input);
      TakeFieldAgrees(s, vs, f);
      NotYetDone(TakeField(s, f).snap, vs + [f.value]);
      var gs;
      gs, tail := CountRead(TakeField(s, f).snap, vs + [f.value], rest);
      fs := [f] + gs;
      PrependField(vs, f, gs, tail);
    }
  }

  lemma FirstPhases(s: Snapshot, vs: seq<seq<byte>>)
    requires Agrees(s, vs) && |vs| <= 5 && s.state != Done
    ensures if |vs| == 5 then Past(s.state) && Readable(vs[4]) && Budget(s) == Count(vs[4])
      else !Past(s.state) && !ByteFree(s.state)
  {
    hide HashesAgree, OperationsAgree, Readable, Count;
  }

  lemma NotYetDone(s: Snapshot, vs: seq<seq<byte>>)
    requires Agrees(s, vs) && |vs| <= 5
    ensures s.state != Done
  {
    hide HashesAgree, OperationsAgree, Readable, Count;
  }

  /**
   * In every snapshot that can be reached, wherever the chunks end, be it inside a header, an id or a payload: once
   * the list size has been read, operations seen, due and to come add up to the number it declared.
   */
  lemma DeclaredCount(chunks: seq<seq<byte>>) returns (fs: seq<Field>, tail: seq<byte>)
    requires Going(Fed(chunks)) && Past(Fed(chunks).snap.state)
    ensures AllWellFormed(fs) && |fs| == 5 && Flat(chunks) == FlatFields(fs) + tail
    ensures Readable(fs[4].value) && Budget(Fed(chunks).snap) == Count(fs[4].value)
  {
    hide Run, Agrees, FlatFields, WellFormed, Readable, Count, Budget, Valid, Fed;
    InitAgrees();
    InitValid();
    FedIsFromStart(chunks);
    fs, tail := CountRead(Init(), [], Flat(chunks));
    assert [] + Values(fs) == Values(fs);
  }
}
