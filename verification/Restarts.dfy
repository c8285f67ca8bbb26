/**
 * A chunk that comes behind a finished stream starts the display over, but neither at the first operation nor at the
 * first part of an argument. The review finds back to its cycle, and still shows everything.
 */
module Restarts {
  import opened Numerals
  import opened Outcomes
  import opened Codec
  import opened ParseOperations
  import opened Screens
  import opened ScreenCycle

  /** The end of `handleSign`: the step and the step count are set, the operation and the countdown stay. */
  function Restarted(v: View): View {
    v.(step := 0, stepCount := 3 + v.argumentCount)
  }

  /** The name of an operation is shown while a countdown is left over from a part of an argument. */
  ghost predicate Repeats(c: Content, v: View, i: nat, r: nat) {
    i < |c.ids| && v.step == 2 && v.remain == r && Loaded(c, v, i) && Seen(v) == NameScreen(c, i)
  }

  /** The display has got that far, and shows what belongs at p. */
  ghost predicate ShowsAt(c: Content, v: Option<View>, p: Position) {
    v.Some? && Seen(v.value) == Expected(c, p)
  }

  /** The review has got that far, and is back on its cycle at p. */
  ghost predicate StandsAt(c: Content, v: Option<View>, p: Position) {
    v.Some? && Stands(c, v.value, p) && OnCycle(c, p)
  }

  ghost predicate RepeatsAt(c: Content, v: Option<View>, i: nat, r: int) {
    v.Some? && r >= 0 && Repeats(c, v.value, i, r)
  }

  /** A countdown that is left over holds the step back, so that the name is shown again. */
  lemma NameAgain(c: Content, v: View, i: nat, r: nat)
    requires WellFormed(c) && Repeats(c, v, i, r)
    ensures Round(c, v).Some?
    ensures r > 1 ==> Repeats(c, Round(c, v).value, i, r - 1)
    ensures r <= 1 ==> Stands(c, Round(c, v).value, Argument(i, 0, 0))
  {
    hide WellFormed, Ticked, Redisplayed, Repeats, Stands, Due, ArgumentPrinted, TxIdText, OnCycle;
    TickAtName(c, v, i, r);
    if r > 1 {
      NameStep(c, Ticked(c, v), i, r - 1);
      RedisplayIs(c, Ticked(c, v));
    } else {
      ShowsWhatIsDue(c, Ticked(c, v), Argument(i, 0, 0));
    }
  }

  lemma TickAtName(c: Content, v: View, i: nat, r: nat)
    requires Repeats(c, v, i, r)
    ensures if r > 1 then Repeats(c, Ticked(c, v), i, r - 1)
            else Due(c, Ticked(c, v), Argument(i, 0, 0)) && OnCycle(c, Argument(i, 0, 0))
  {
    hide OpOf, Parts, ParserOf, ArgumentCount, NameScreen, IdOf;
    AllCount(IdOf(c, i));
  }

  lemma NameStep(c: Content, v: View, i: nat, r: nat)
    requires Repeats(c, v, i, r)
    ensures v.step == 2
  {
    hide Loaded, NameScreen;
  }

  /** The first two rounds lead to the name of the operation that was being shown. */
  lemma RestartsAtName(c: Content, v: View, i: nat)
    requires i < |c.ids| && v.current == i
    ensures var w := Restarted(v);
      ShowsAt(c, Some(w), Confirm) && ShowsAt(c, Rounds(c, w, 1), TxId) && RepeatsAt(c, Rounds(c, w, 2), i, v.remain)
  {
    hide Redisplayed, ParserOf, ArgumentCount, NameScreen, TxIdText, IdOf;
    var w := Restarted(v);
    assert Rounds(c, w, 0) == Some(w);
    RedisplayIs(c, Ticked(c, w));
    var t := Rounds(c, w, 1).value;
    RedisplayIs(c, Ticked(c, t));
  }

  function Held(r: nat): nat {
    if r > 1 then r else 1
  }

  /** The name is shown until the countdown has run out. */
  lemma {:induction false} NameHeld(c: Content, v: View, i: nat, k: nat)
    requires WellFormed(c) && i < |c.ids| && v.current == i && k < Held(v.remain)
    ensures RepeatsAt(c, Rounds(c, Restarted(v), 2 + k), i, v.remain - k)
  {
    hide WellFormed, Repeats, Round, Restarted;
    if k == 0 {
      RestartsAtName(c, v, i);
    } else {
      NameHeld(c, v, i, k - 1);
      NameAgain(c, Rounds(c, Restarted(v), 1 + k).value, i, v.remain - (k - 1));
    }
  }

  /**
   * Wherever the review stood: it starts over with the confirmation and the transaction id, then shows the name of the
   * operation it was at, once for every part that was still to come and at least once, and is back on its cycle with
   * the first argument of that operation.
   */
  lemma RestartRejoins(c: Content, v: View, p: Position)
    requires WellFormed(c) && OnCycle(c, p) && Stands(c, v, p)
    ensures var w, m := Restarted(v), Held(v.remain);
      && ShowsAt(c, Some(w), Confirm) && ShowsAt(c, Rounds(c, w, 1), TxId)
      && (forall k :: 2 <= k < 2 + m ==> ShowsAt(c, Rounds(c, w, k), Name(v.current)))
      && StandsAt(c, Rounds(c, w, 2 + m), Argument(v.current, 0, 0))
  {
    hide WellFormed, Repeats, Rounds, Round, Stands, Restarted, Seen, Expected, OnCycle, ShowsAt;
    var i, m := v.current, Held(v.remain);
    CurrentThere(c, v, p);
    RestartsAtName(c, v, i);
    forall k | 2 <= k < 2 + m ensures ShowsAt(c, Rounds(c, Restarted(v), k), Name(i)) {
      NameHeld(c, v, i, k - 2);
      RepeatsShows(c, Rounds(c, Restarted(v), k).value, i, v.remain - (k - 2));
    }
    NameHeld(c, v, i, m - 1);
    var last := Rounds(c, Restarted(v), 1 + m).value;
    NameAgain(c, last, i, v.remain - (m - 1));
    RoundsNext(c, Restarted(v), 1 + m);
  }

  lemma RepeatsShows(c: Content, v: View, i: nat, r: nat)
    requires Repeats(c, v, i, r)
    ensures ShowsAt(c, Some(v), Name(i))
  {
  }

  lemma CurrentThere(c: Content, v: View, p: Position)
    requires WellFormed(c) && OnCycle(c, p) && Stands(c, v, p)
    ensures v.current < |c.ids| && OnCycle(c, Argument(v.current, 0, 0))
  {
    hide Showable, From, OpOf, Expected, Seen, ParserOf, ArgumentCount, Parts;
    AllCount(IdOf(c, v.current));
  }

  lemma RoundsNext(c: Content, v: View, k: nat)
    requires Rounds(c, v, k).Some?
    ensures Rounds(c, v, k + 1) == Round(c, Rounds(c, v, k).value)
  {
  }

  /** From any place on the cycle the review goes on along it. */
  lemma {:induction false} GoesOn(c: Content, v: View, n: nat, k: nat)
    requires WellFormed(c) && Stands(c, v, Walk(c, n))
    ensures StandsAt(c, Rounds(c, v, k), Walk(c, n + k))
  {
    hide WellFormed, Stands, Round, OnCycle, Next, Index, Period;
    WalkIndex(c, n + k);
    if k > 0 {
      GoesOn(c, v, n, k - 1);
      WalkIndex(c, n + k - 1);
      RoundAdvances(c, Rounds(c, v, k - 1).value, Walk(c, n + k - 1));
    }
  }

  lemma {:induction false} RoundsMore(c: Content, v: View, a: nat, b: nat)
    requires Rounds(c, v, a).Some?
    ensures Rounds(c, v, a + b) == Rounds(c, Rounds(c, v, a).value, b)
  {
    hide Round;
    if b > 0 {
      RoundsMore(c, v, a, b - 1);
    }
  }

  /** Every screen is still shown, within a period and the rounds it takes to come back to the cycle. */
  lemma RestartShowsAll(c: Content, v: View, p: Position, q: Position) returns (j: nat)
    requires WellFormed(c) && OnCycle(c, p) && Stands(c, v, p) && OnCycle(c, q)
    ensures j < 2 + Held(v.remain) + Period(c)
    ensures ShowsAt(c, Rounds(c, Restarted(v), j), q)
  {
    hide WellFormed, Rounds, Stands, OnCycle, Index, Period, Walk, Seen, Expected, Restarted;
    RestartRejoins(c, v, p);
    var start, back := 2 + Held(v.remain), Argument(v.current, 0, 0);
    var n := WhereOnWalk(c, 0, back);
    var at := WhereOnWalk(c, n, q);
    var u := Rounds(c, Restarted(v), start).value;
    GoesOn(c, u, n, at - n);
    RoundsMore(c, Restarted(v), start, at - n);
    j := start + (at - n);
    ShownThere(c, Rounds(c, u, at - n), q);
  }

  lemma ShownThere(c: Content, v: Option<View>, p: Position)
    requires StandsAt(c, v, p)
    ensures ShowsAt(c, v, p)
  {
  }

  lemma WhereOnWalk(c: Content, k: nat, p: Position) returns (j: nat)
    requires WellFormed(c) && OnCycle(c, p)
    ensures k <= j < k + Period(c) && Walk(c, j) == p
  {
    hide WellFormed, OnCycle, Index, Period, Walk;
    IndexBelow(c, p);
    j := Reached(k, Period(c), Index(c, p));
    WalkIndex(c, j);
    IndexTells(c, Walk(c, j), p);
  }
}
