/**
 * Exactly which streams are copied past the end of sizeBuffer. Its twelve bytes take the operation count, the
 * operation ids and the extension count, and nothing looks at the length of these fields before they are copied.
 */
module SizeBuffer {
  import opened Numerals
  import opened StreamSpec
  import opened StreamChunks
  import opened StreamFields
  import opened StreamMeaning
  import opened Finishing
  import opened Tlv

  /** The value behind these is a number: the operation count, an operation id or the extension count. */
  predicate NumberDue(vs: seq<seq<byte>>) {
    |vs| == 4 || (|vs| > 4 && |vs| % 2 == 1 && |vs| < 6 + 2 * Declared(vs))
  }

  /**
   * Behind fields that are taken stands the header of a number of more than twelve bytes, and thirteen of its bytes
   * follow, be they all of it or not.
   */
  ghost predicate LongNumber(input: seq<byte>, fs: seq<Field>, h: seq<byte>, n: nat) {
    && AllWellFormed(fs) && Taken(Values(fs)) && NumberDue(Values(fs)) && IsHeader(h, n) && n > 12
    && FlatFields(fs) + h <= input && |input| > |FlatFields(fs) + h| + 12
  }

  // ---- a long number leaves the buffer ----

  lemma DueIsSize(s: Snapshot, vs: seq<seq<byte>>, h: seq<byte>, n: nat)
    requires Agrees(s, vs) && s.state != Done
    ensures SizeField(Settle(OpenedBy(s, h, n)).state) <==> NumberDue(vs)
  {
    hide HashesAgree, OperationsAgree, Boundary, Readable, Count, Settle, OpenedBy, Valid;
    SettledState(s, h, n);
  }

  lemma SettledState(s: Snapshot, h: seq<byte>, n: nat)
    ensures Settle(OpenedBy(s, h, n)).state
         == if !ByteFree(s.state) then s.state else if s.remaining > 0 then OperationId else TxExtensionListSize
  {
    hide Valid;
  }

  /** Where a number is due, the field is open and enough bytes are there, the next turn leaves the buffer. */
  lemma LeavesBuffer(t: Snapshot, h: seq<byte>, n: nat, tail: seq<byte>)
    requires Boundary(t) && t.state != Done && IsHeader(h, n) && n > SIZE_BUFFER && |tail| > SIZE_BUFFER
    requires SizeField(Settle(OpenedBy(t, h, n)).state)
    ensures Run(t, h + tail).status == Overrun
  {
    hide Valid, Run, Turn, Settle, OpenedBy, TryDecode, Dispatch, InHeader;
    DecodedLength(h);
    RunHeader(t, h, n, 0, tail);
    InHeaderNone(t, h);
    var u := OpenedBy(t, h, n);
    OpenedFacts(t, h, n);
    assert h[0..] + tail == h + tail;
    SettleValid(u);
    TurnSettles(u, tail);
    TurnFrom(Settle(u), tail);
    LongCopy(Settle(u), tail);
  }

  lemma LongCopy(m: Snapshot, tail: seq<byte>)
    requires SizeField(m.state) && m.fieldPos == 0 && m.fieldLength > SIZE_BUFFER && |tail| > SIZE_BUFFER
    ensures Dispatch(m, tail) == Step(Overrun, m, tail)
  {
  }

  lemma LongNumberOverruns(input: seq<byte>, fs: seq<Field>, h: seq<byte>, n: nat)
    requires LongNumber(input, fs, h, n)
    ensures FromStart(input).status == Overrun
  {
    hide Taken, AllWellFormed, Agrees, FlatFields, Valid, Run, TryDecode, Values, NumberDue, Settle, OpenedBy;
    var tail := input[|FlatFields(fs) + h|..];
    var vs := Values(fs);
    InitAgrees();
    InitValid();
    NoneRead(fs);
    var t := ReadsOn(fs, Init(), 0, h + tail);
    assert input == FlatFields(fs) + (h + tail);
    AgreesBoundary(t, vs);
    NotAtEnd(t, vs);
    DueIsSize(t, vs, h, n);
    LeavesBuffer(t, h, n, tail);
  }

  lemma NoneRead(fs: seq<Field>)
    ensures Values(fs)[..0] == [] && fs[0..] == fs
  {
  }

  lemma NotAtEnd(s: Snapshot, vs: seq<seq<byte>>)
    requires Agrees(s, vs) && NumberDue(vs)
    ensures s.state != Done
  {
    hide HashesAgree, OperationsAgree, Boundary, Readable, Count;
  }

  // ---- nothing else does ----

  /** What a run that leaves the buffer met first: a whole field that is taken, or a number that is too long. */
  lemma NextOrLong(s: Snapshot, vs: seq<seq<byte>>, input: seq<byte>) returns (h: seq<byte>, n: nat, tail: seq<byte>)
    requires Agrees(s, vs) && s.state != Done && Run(s, input).status == Overrun
    ensures IsHeader(h, n) && input == h + tail
    ensures if n > SIZE_BUFFER && |tail| > SIZE_BUFFER && NumberDue(vs) then true
      else n <= |tail| && var f := Field(h, tail[..n]);
        && TakeField(s, f).status == Processing && Boundary(TakeField(s, f).snap)
        && Run(TakeField(s, f).snap, tail[n..]).status == Overrun
  {
    hide Agrees, Valid, Run, Turn, TakeField, IsHeader, NumberDue, Settle, OpenedBy, Dispatch, Overruns;
    AgreesBoundary(s, vs);
    h, n := PassedOpens(s, input);
    tail := input[|h|..];
    assert input == h + tail;
    DueIsSize(s, vs, h, n);
    if !(n > SIZE_BUFFER && |tail| > SIZE_BUFFER && NumberDue(vs)) {
      AllThere(s, h, n, tail);
      var f := Field(h, tail[..n]);
      assert input == Bytes(f) + tail[n..];
      OpenedFacts(s, h, n);
      RunField(s, f, tail[n..]);
      NoOverrun(s, f);
    }
  }

  /** Otherwise all of the field is there: a call that ends inside it does not leave the buffer. */
  lemma AllThere(s: Snapshot, h: seq<byte>, n: nat, tail: seq<byte>)
    requires Valid(OpenedBy(s, h, n)) && OpenedBy(s, h, n).processing && s.state != Done
    requires Turn(OpenedBy(s, h, n), tail).status == Overrun
    requires n <= SIZE_BUFFER || |tail| <= SIZE_BUFFER || !SizeField(Settle(OpenedBy(s, h, n)).state)
    ensures n <= |tail| && (tail != [] || !ByteFree(s.state))
  {
    hide Valid, Turn, Dispatch, Settle, OpenedBy, Overruns;
    var u := OpenedBy(s, h, n);
    OpenedFacts(s, h, n);
    if tail == [] && ByteFree(s.state) {
      TooShort(u, tail);
    } else {
      SettleValid(u);
      TurnSettles(u, tail);
      if |tail| < n {
        StopsShort(Settle(u), tail);
        ShortCopy(Settle(u), tail);
      }
    }
  }

  lemma ShortCopy(m: Snapshot, tail: seq<byte>)
    requires m.fieldPos == 0 && Overruns(m, tail)
    ensures SizeField(m.state) && m.fieldLength > SIZE_BUFFER && |tail| > SIZE_BUFFER
  {
  }

  lemma NoOverrun(s: Snapshot, f: Field)
    requires Valid(OpenedBy(s, f.header, |f.value|)) && OpenedBy(s, f.header, |f.value|).processing
    requires |f.value| <= SIZE_BUFFER || !SizeField(Settle(OpenedBy(s, f.header, |f.value|)).state)
    ensures TakeField(s, f).status != Overrun
  {
    hide Valid, Dispatch, Settle, OpenedBy, Overruns;
    var u := OpenedBy(s, f.header, |f.value|);
    OpenedFacts(s, f.header, |f.value|);
    SettleValid(u);
    OverrunsOnly(Settle(u), f.value);
    if Overruns(Settle(u), f.value) {
      ShortCopy(Settle(u), f.value);
    }
  }

  /** A run that leaves the buffer, from any agreement on, has met a long number behind fields that were taken. */
  lemma {:induction false} FindsLongNumber(s: Snapshot, vs: seq<seq<byte>>, input: seq<byte>)
    returns (fs: seq<Field>, h: seq<byte>, n: nat, tail: seq<byte>)
    requires Agrees(s, vs) && Run(s, input).status == Overrun
    ensures AllWellFormed(fs) && Taken(vs + Values(fs)) && NumberDue(vs + Values(fs)) && IsHeader(h, n)
    ensures n > SIZE_BUFFER
    ensures input == FlatFields(fs) + (h + tail) && |tail| > SIZE_BUFFER
    decreases |input|
  {
    hide Valid, Run, TakeField, Agrees, Boundary, Taken, NumberDue, FlatFields;
    AgreesBoundary(s, vs);
    NotDone(s, input);
    h, n, tail := NextOrLong(s, vs, input);
    if n > SIZE_BUFFER && |tail| > SIZE_BUFFER && NumberDue(vs) {
      fs := [];
      AgreesTaken(s, vs);
      NoFields(input);
      assert vs + Values(fs) == vs;
    } else {
      var f, rest := Field(h, tail[..n]), tail[n..];
      HeaderLength(h, n);
      TakeFieldAgrees(s, vs, f);
      var gs;
      gs, h, n, tail := FindsLongNumber(TakeField(s, f).snap, vs + [f.value], rest);
      fs := [f] + gs;
      assert input == Bytes(f) + rest;
      PrependField(vs, f, gs, h + tail);
    }
  }

  lemma NotDone(s: Snapshot, input: seq<byte>)
    requires Valid(s) && Run(s, input).status == Overrun
    ensures s.state != Done
  {
    hide Valid;
  }

  lemma HeaderLength(h: seq<byte>, n: nat)
    requires IsHeader(h, n)
    ensures |h| >= 2
  {
    hide TryDecode;
  }

  /**
   * Exactly which streams leave sizeBuffer, of all streams there are: those that hold, behind fields that are taken,
   * a number of more than twelve bytes, as soon as thirteen of its bytes are there.
   */
  lemma OverrunsExactly(input: seq<byte>)
    ensures FromStart(input).status == Overrun <==> exists fs, h, n :: LongNumber(input, fs, h, n)
  {
    hide LongNumber, FromStart;
    if FromStart(input).status == Overrun {
      LongNumberFound(input);
    }
    forall fs, h, n | LongNumber(input, fs, h, n) ensures FromStart(input).status == Overrun {
      LongNumberOverruns(input, fs, h, n);
    }
  }

  lemma LongNumberFound(input: seq<byte>)
    requires FromStart(input).status == Overrun
    ensures exists fs, h, n :: LongNumber(input, fs, h, n)
  {
    hide Agrees, Run, Valid, Taken, NumberDue, FlatFields, IsHeader, AllWellFormed, Values;
    InitAgrees();
    InitValid();
    var fs, h, n, tail := FindsLongNumber(Init(), [], input);
    assert [] + Values(fs) == Values(fs);
    assert input == FlatFields(fs) + h + tail;
    assert LongNumber(input, fs, h, n);
  }

  // ---- streams of fields ----

  /** The k-th of these fields is a number of more than twelve bytes, and is reached. */
  ghost predicate LongField(fs: seq<Field>, k: nat) {
    && k < |fs| && AllWellFormed(fs[..k + 1]) && Taken(Values(fs)[..k]) && NumberDue(Values(fs)[..k])
    && |fs[k].value| > 12
  }

  /** Fields that begin a stream of fields are the first of them. */
  lemma {:induction false} PrefixFields(fs: seq<Field>, x: seq<byte>, gs: seq<Field>)
    requires AllWellFormed(fs) && FlatFields(fs) + x == FlatFields(gs)
    requires forall g <- gs :: WellFormed(g) || TooLong(g)
    ensures fs <= gs && x == FlatFields(gs[|fs|..])
  {
    hide WellFormed, Bytes, TooLong;
    if fs == [] {
      assert gs[0..] == gs;
    } else {
      PrefixStep(fs, x, gs);
      PrefixFields(fs[1..], x, gs[1..]);
      assert gs == [gs[0]] + gs[1..] && fs == [fs[0]] + fs[1..] && gs[1..][|fs[1..]|..] == gs[|fs|..];
    }
  }

  lemma PrefixStep(fs: seq<Field>, x: seq<byte>, gs: seq<Field>)
    requires fs != [] && WellFormed(fs[0]) && FlatFields(fs) + x == FlatFields(gs)
    requires forall g <- gs :: WellFormed(g) || TooLong(g)
    ensures gs != [] && gs[0] == fs[0] && FlatFields(fs[1..]) + x == FlatFields(gs[1..])
  {
    hide WellFormed, Bytes, TooLong;
    FlatNotEmpty(fs);
    assert FlatFields(fs) + x == Bytes(fs[0]) + (FlatFields(fs[1..]) + x);
    assert gs[0] in gs;
    NotLong(fs[0], FlatFields(fs[1..]) + x, gs[0], FlatFields(gs[1..]));
    SameField(fs[0], FlatFields(fs[1..]) + x, gs[0], FlatFields(gs[1..]));
  }

  lemma {:induction false} FlatSplit(fs: seq<Field>, k: nat)
    requires k <= |fs|
    ensures FlatFields(fs) == FlatFields(fs[..k]) + FlatFields(fs[k..])
  {
    hide Bytes;
    if k == 0 {
      assert fs[..0] == [] && fs[0..] == fs;
    } else {
      FlatSplit(fs[1..], k - 1);
      assert fs[..k][1..] == fs[1..][..k - 1] && fs[k..] == fs[1..][k - 1..];
    }
  }

  /**
   * For a stream of fields, as an encoder writes it: it leaves sizeBuffer if and only if one of its fields is a
   * number of more than twelve bytes and all fields before it are taken.
   */
  lemma FieldsOverrun(fs: seq<Field>)
    requires forall f <- fs :: WellFormed(f) || TooLong(f)
    ensures FromStart(FlatFields(fs)).status == Overrun <==> exists k :: LongField(fs, k)
  {
    hide FromStart, FlatFields, WellFormed, TooLong, LongField;
    if FromStart(FlatFields(fs)).status == Overrun {
      LongNumberFound(FlatFields(fs));
      var gs, h, n :| LongNumber(FlatFields(fs), gs, h, n);
      LongNumberIsField(fs, gs, h, n);
    }
    forall k | LongField(fs, k) ensures FromStart(FlatFields(fs)).status == Overrun {
      LongFieldOverruns(fs, k, []);
      assert FlatFields(fs) + [] == FlatFields(fs);
    }
  }

  /** Such a field leaves the buffer whatever follows. */
  lemma LongFieldOverruns(fs: seq<Field>, k: nat, rest: seq<byte>)
    requires LongField(fs, k)
    ensures FromStart(FlatFields(fs) + rest).status == Overrun
  {
    hide FromStart, FlatFields, IsHeader, Taken, NumberDue, Values;
    var f := fs[k];
    FieldsBefore(fs, k);
    var input := FlatFields(fs) + rest;
    FieldInFront(fs, k, rest);
    assert LongNumber(input, fs[..k], f.header, |f.value|);
    LongNumberOverruns(input, fs[..k], f.header, |f.value|);
  }

  lemma FieldsBefore(fs: seq<Field>, k: nat)
    requires k < |fs| && AllWellFormed(fs[..k + 1])
    ensures AllWellFormed(fs[..k]) && WellFormed(fs[k]) && Values(fs[..k]) == Values(fs)[..k]
  {
    hide WellFormed;
    assert fs[..k + 1][k] == fs[k];
    forall j | 0 <= j < k ensures WellFormed(fs[..k][j]) {
      assert fs[..k + 1][j] == fs[..k][j];
    }
  }

  /** The stream up to the header of field k, and what is behind it. */
  lemma FieldInFront(fs: seq<Field>, k: nat, rest: seq<byte>)
    requires k < |fs|
    ensures var input, front := FlatFields(fs) + rest, FlatFields(fs[..k]) + fs[k].header;
      front <= input && |input| >= |front| + |fs[k].value|
  {
    hide FlatFields;
    var f := fs[k];
    FlatSplit(fs, k);
    FirstInFront(fs[k..]);
    Regrouped(FlatFields(fs[..k]), f.header, f.value, FlatFields(fs[k..][1..]), rest);
  }

  lemma FirstInFront(fs: seq<Field>)
    requires fs != []
    ensures FlatFields(fs) == fs[0].header + fs[0].value + FlatFields(fs[1..])
  {
  }

  lemma Regrouped(a: seq<byte>, h: seq<byte>, v: seq<byte>, b: seq<byte>, rest: seq<byte>)
    ensures a + h <= a + (h + v + b) + rest && |a + (h + v + b) + rest| >= |a + h| + |v|
  {
    assert a + (h + v + b) + rest == a + h + (v + (b + rest));
  }

  lemma LongNumberIsField(fs: seq<Field>, gs: seq<Field>, h: seq<byte>, n: nat)
    requires (forall f <- fs :: WellFormed(f) || TooLong(f)) && LongNumber(FlatFields(fs), gs, h, n)
    ensures LongField(fs, |gs|)
  {
    hide FlatFields, IsHeader, Taken, NumberDue, TooLong;
    var input, k := FlatFields(fs), |gs|;
    var tail := input[|FlatFields(gs) + h|..];
    assert input == FlatFields(gs) + (h + tail);
    PrefixFields(gs, h + tail, fs);
    NextIs(fs[k..], h, n, tail);
    assert fs[k..][0] == fs[k];
    assert Values(fs)[..k] == Values(gs);
    assert fs[..k + 1] == gs + [fs[k]];
  }

  lemma NextIs(fs: seq<Field>, h: seq<byte>, n: nat, tail: seq<byte>)
    requires IsHeader(h, n) && h + tail == FlatFields(fs) && forall f <- fs :: WellFormed(f) || TooLong(f)
    ensures fs != [] && WellFormed(fs[0]) && |fs[0].value| == n
  {
    hide TryDecode, WellFormed, TooLong;
    assert fs != [];
    var f, more := fs[0], FlatFields(fs[1..]);
    assert h + tail == f.header + (f.value + more);
    ShortHeader(h, n);
    assert f in fs;
    assert !TooLong(f) by { TooLongStart(f, f.value + more); assert (h + tail)[1] == h[1]; }
    WellFormedHeader(f);
    SameHeader(h, n, tail, f.header, |f.value|, f.value + more);
  }

  lemma ShortHeader(h: seq<byte>, n: nat)
    requires IsHeader(h, n)
    ensures |h| >= 2 && h[1] < 132
  {
  }

  lemma TooLongStart(f: Field, more: seq<byte>)
    ensures TooLong(f) ==> |f.header| >= 2 && (f.header + more)[1] >= 132
  {
  }

  lemma WellFormedHeader(f: Field)
    ensures WellFormed(f) <==> IsHeader(f.header, |f.value|)
  {
  }

  /** The corollary for a host: numbers of at most twelve bytes never leave the buffer. */
  lemma ShortNumbersStay(fs: seq<Field>)
    requires forall f <- fs :: WellFormed(f) || TooLong(f)
    requires forall k :: 4 <= k < |fs| && (k == 4 || k % 2 == 1) ==> |fs[k].value| <= 12
    ensures FromStart(FlatFields(fs)).status != Overrun
  {
    hide FromStart, FlatFields, WellFormed, TooLong, Taken, AllWellFormed;
    FieldsOverrun(fs);
  }
}
