/** Reviews of the same operations with the same payloads show the same, whatever lies in memory behind the payloads. */
module AlikeReviews {
  import opened Codec
  import opened DecodedLists
  import opened PayloadScreens
  import opened ParseOperations
  import opened Screens
  import opened ScreenCycle

  /** The same operations with the same payloads; what lies behind them may differ. */
  ghost predicate Alike(c: Content, d: Content) {
    && c.ids == d.ids && c.offsets == d.offsets && c.txIdHash == d.txIdHash && c.ripemd == d.ripemd
    && forall i :: 0 <= i < |c.ids| ==> Payload(c, i) == Payload(d, i)
  }

  lemma AlikeOperation(c: Content, d: Content, i: nat)
    requires Alike(c, d) && i < |c.ids|
    ensures From(c, i) == From(d, i) && Size(c, i) == Size(d, i)
    ensures OpOf(c, i) == OpOf(d, i) && IdOf(c, i) == IdOf(d, i)
    ensures Parsed(c, ParserOf(IdOf(c, i)), i) == Parsed(d, ParserOf(IdOf(d, i)), i)
    ensures Showable(c, i) <==> Showable(d, i)
  {
    hide OperationIn, Window, Bounded;
    assert Payload(c, i) == Payload(d, i);
  }

  lemma AlikeWellFormed(c: Content, d: Content)
    requires Alike(c, d)
    ensures WellFormed(c) <==> WellFormed(d)
  {
    hide Alike, From, Showable;
    AlikeParts(c, d);
    forall i | 0 <= i < |c.ids| ensures From(c, i) == From(d, i) && (Showable(c, i) <==> Showable(d, i)) {
      AlikeOperation(c, d, i);
    }
  }

  lemma AlikeParts(c: Content, d: Content)
    requires Alike(c, d)
    ensures c.ids == d.ids && c.offsets == d.offsets && c.txIdHash == d.txIdHash && c.ripemd == d.ripemd
  {
  }

  lemma AlikeNext(c: Content, d: Content, p: Position)
    requires Alike(c, d) && OnCycle(c, p)
    ensures Next(c, p) == Next(d, p) && OnCycle(d, p)
  {
    hide OpOf, Parts, ParserOf, ArgumentCount, Alike, IdOf;
    AlikeParts(c, d);
    if p.Argument? || p.Name? {
      AlikeOperation(c, d, p.op);
    }
  }

  lemma WindowSame(mem: Memory, other: Memory, at: nat, size: nat)
    requires Window(mem, at, size) == Window(other, at, size)
    ensures SameAt(mem, other, at, at + size)
  {
    forall a | at <= a < at + size ensures mem(a) == other(a) {
      assert Window(mem, at, size)[a - at] == Window(other, at, size)[a - at];
    }
  }

  /** Every screen of a well-formed operation is decided by its payload. */
  lemma OperationDecided(c: Content, other: Memory, i: nat, arg: nat, remain: nat)
    requires WellFormed(c) && i < |c.ids| && Window(other, From(c, i), Size(c, i)) == Payload(c, i)
    ensures OperationScreen(c.mem, OpOf(c, i), arg, remain, c.ripemd)
        == OperationScreen(other, OpOf(c, i), arg, remain, c.ripemd)
  {
    hide AccountUpdateIn, TransferIn, LimitOrderCreateIn, LimitOrderCancelIn, AccountUpgradeIn, AccountUpdateScreen,
         TransferScreen, LimitOrderCreateScreen, LimitOrderCancelScreen, AccountUpgradeScreen, UnsupportedScreen,
         UnknownScreen, Window, ListsUnwrapped;
    assert Showable(c, i) && From(c, i) <= c.offsets[i] < UINT32;
    if OpOf(c, i).AnUpdate? {
      WindowSame(c.mem, other, From(c, i), Size(c, i));
      UpdateDecided(c.mem, other, From(c, i), Size(c, i), arg, remain, c.ripemd);
    }
  }

  lemma AlikeExpected(c: Content, d: Content, p: Position)
    requires Alike(c, d) && WellFormed(c) && OnCycle(c, p)
    ensures Expected(c, p) == Expected(d, p)
  {
    hide OpOf, Parts, ParserOf, OperationScreen, WellFormed, TxIdText, Payload, From, Size, Showable, IdOf, Parsed;
    if p.Argument? {
      AlikeOperation(c, d, p.op);
      PayloadThere(c, d, p.op);
      OperationDecided(c, d.mem, p.op, p.arg, RemainAt(c, p.op, p.arg, p.part));
    } else if p.Name? {
      AlikeOperation(c, d, p.op);
    }
  }

  lemma PayloadThere(c: Content, d: Content, i: nat)
    requires Alike(c, d) && i < |c.ids| && From(c, i) == From(d, i) && Size(c, i) == Size(d, i)
    ensures Window(d.mem, From(c, i), Size(c, i)) == Payload(c, i)
  {
    hide Window;
    assert Payload(c, i) == Payload(d, i);
  }

  /** Reviews of contents that are alike run alike. */
  lemma {:induction false} AlikeWalk(c: Content, d: Content, k: nat)
    requires Alike(c, d) && WellFormed(c)
    ensures Walk(c, k) == Walk(d, k) && OnCycle(c, Walk(c, k)) && Expected(c, Walk(c, k)) == Expected(d, Walk(d, k))
  {
    hide Alike, WellFormed, OnCycle, Next, Expected, Walk, Index, Period;
    WalkIndex(c, k);
    WalkStep(c, k);
    WalkStep(d, k);
    if k > 0 {
      AlikeWalk(c, d, k - 1);
      AlikeNext(c, d, Walk(c, k - 1));
    }
    AlikeExpected(c, d, Walk(c, k));
  }

  lemma WalkStep(c: Content, k: nat)
    ensures Walk(c, k) == if k == 0 then Confirm else Next(c, Walk(c, k - 1))
  {
    hide Next;
  }
}
