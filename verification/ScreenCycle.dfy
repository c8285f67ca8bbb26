/** The review is a cycle, and every screen of every operation is on it once, in order. */
module ScreenCycle {
  import opened Numerals
  import opened Outcomes
  import opened Codec
  import opened CText
  import opened ParseOperations
  import opened Assets
  import opened DecodedLists
  import opened Screens
  import KeyText

  /**
   * A screen of the review: the two in front, an operation's name, or part k of one of its arguments (0: its
   * header).
   */
  datatype Position = Confirm | TxId | Name(op: nat) | Argument(op: nat, arg: nat, part: nat)

  function Arguments(c: Content, i: nat): nat {
    ArgumentCount(ParserOf(IdOf(c, i)))
  }

  function PartsOf(c: Content, i: nat, a: nat): nat {
    Parts(OpOf(c, i), a)
  }

  predicate OnCycle(c: Content, p: Position) {
    match p
    case Confirm => true
    case TxId => true
    case Name(i) => i < |c.ids|
    case Argument(i, a, k) => i < |c.ids| && a < Arguments(c, i) && k <= PartsOf(c, i, a)
  }

  /** The order the user expects: an argument's parts, the arguments of an operation, the operations, and again. */
  function Next(c: Content, p: Position): Position {
    match p
    case Confirm => TxId
    case TxId => Name(0)
    case Name(i) => Argument(i, 0, 0)
    case Argument(i, a, k) =>
      if k < PartsOf(c, i, a) then Argument(i, a, k + 1)
      else if a + 1 < Arguments(c, i) then Argument(i, a + 1, 0)
      else if i + 1 < |c.ids| then Name(i + 1)
      else Confirm
  }

  /** What belongs on the screen at a position. */
  ghost function Expected(c: Content, p: Position): Screen {
    match p
    case Confirm => Screen("Confirm", "Transaction")
    case TxId => Screen("Tx ID", TxIdText(c.txIdHash))
    case Name(i) => NameScreen(c, i)
    case Argument(i, a, k) =>
      match OperationScreen(c.mem, OpOf(c, i), a, RemainAt(c, i, a, k), c.ripemd)
      case Some(s) => s
      case None => Screen("", "")
  }

  /** The countdown with which part k is printed. */
  function RemainAt(c: Content, i: nat, a: nat, k: nat): nat {
    if 0 < k <= PartsOf(c, i, a) then PartsOf(c, i, a) + 1 - k else 0
  }

  // ---- the machine follows the order ----

  predicate Loaded(c: Content, v: View, i: nat) {
    v.current == i && v.parser == ParserOf(IdOf(c, i)) && v.stepCount == 3 + Arguments(c, i)
  }

  /** The machine is where the position says, and has printed its screen. */
  ghost predicate Stands(c: Content, v: View, p: Position) {
    && Seen(v) == Expected(c, p)
    && match p
       case Confirm => v.step == 0 && v.current == 0 && v.remain == 0 && v.stepCount >= 3
       case TxId => v.step == 1 && v.current == 0 && v.remain == 0 && v.stepCount >= 3
       case Name(i) => v.step == 2 && v.remain == 0 && Loaded(c, v, i)
       case Argument(i, a, k) =>
         v.step == 3 + a && Loaded(c, v, i) && v.remain == if PartsOf(c, i, a) > 0 then PartsOf(c, i, a) + 1 - k else 0
  }

  /** One tick of the timer and the redisplay behind it. */
  ghost function Round(c: Content, v: View): Option<View> {
    Redisplayed(c, Ticked(c, v), 0)
  }

  lemma AllCount(i: nat)
    ensures ArgumentCount(ParserOf(i)) >= 2
  {
  }

  /** Between tick and redisplay: the step and the countdown are those with which the position's screen is printed. */
  ghost predicate Due(c: Content, v: View, p: Position) {
    match p
    case Confirm => v.step == 0 && v.current == 0 && v.remain == 0 && v.stepCount >= 3
    case TxId => v.step == 1 && v.current == 0 && v.remain == 0 && v.stepCount >= 3
    case Name(i) => v.step == 2 && v.remain == 0 && Loaded(c, v, i) && Screen(v.title, v.text) == NameScreen(c, i)
    case Argument(i, a, k) => v.step == 3 + a && Loaded(c, v, i) && v.remain == RemainAt(c, i, a, k)
  }

  lemma TickDue(c: Content, v: View, p: Position)
    requires WellFormed(c) && OnCycle(c, p) && Stands(c, v, p)
    ensures Due(c, Ticked(c, v), Next(c, p)) && OnCycle(c, Next(c, p))
  {
    hide OpOf, Parts, ParserOf, ArgumentCount, NameScreen, Expected, Seen, IdOf, Showable, From;
    if p.Argument? {
      hide WellFormed;
      ArgumentTickDue(c, v, p.op, p.arg, p.part);
    } else if p.Name? {
      AllCount(IdOf(c, p.op));
    }
  }

  lemma ArgumentTickDue(c: Content, v: View, i: nat, a: nat, k: nat)
    requires WellFormed(c) && OnCycle(c, Argument(i, a, k)) && Stands(c, v, Argument(i, a, k))
    ensures Due(c, Ticked(c, v), Next(c, Argument(i, a, k))) && OnCycle(c, Next(c, Argument(i, a, k)))
  {
    hide OpOf, Parts, ParserOf, ArgumentCount, NameScreen, Expected, Seen, IdOf, Showable, From;
    AllCount(IdOf(c, i + 1));
    AllCount(IdOf(c, i));
  }

  /** Every argument of a well-formed operation has something to print, and so has every part of it. */
  lemma SomethingToPrint(c: Content, i: nat, a: nat, k: nat)
    requires WellFormed(c) && OnCycle(c, Argument(i, a, k))
    ensures Parsed(c, ParserOf(IdOf(c, i)), i) == Some(OpOf(c, i))
    ensures OperationScreen(c.mem, OpOf(c, i), a, RemainAt(c, i, a, k), c.ripemd).Some?
  {
    hide AccountUpdateIn, TransferIn, LimitOrderCreateIn, LimitOrderCancelIn, AccountUpgradeIn, AccountUpdateScreen,
         PermissionReadable, OptionsReadable, Window, AssetText, Decimal, AccountIdText, BoolText;
    assert Showable(c, i);
    var op := OpOf(c, i);
    if op.AnUpdate? {
      AccountUpdateReadable(c.mem, From(c, i), Size(c, i));
      UpdateHasScreen(c.mem, op.update, a, RemainAt(c, i, a, k), c.ripemd);
    }
  }

  lemma UpdateHasScreen(mem: Memory, u: AccountUpdate, arg: nat, remain: nat, ripemd: KeyText.Ripemd160)
    requires arg < 5 && remain <= Subscreens(u, arg)
    requires PermissionReadable(mem, u.ownerPermission) && PermissionReadable(mem, u.activePermission)
    requires OptionsReadable(u.accountOptions)
    ensures AccountUpdateScreen(mem, u, arg, remain, ripemd).Some?
  {
  }

  lemma ShowsWhatIsDue(c: Content, v: View, p: Position)
    requires WellFormed(c) && OnCycle(c, p) && Due(c, v, p)
    ensures Redisplayed(c, v, 0).Some? && Stands(c, Redisplayed(c, v, 0).value, p)
  {
    hide OpOf, Parts, ParserOf, ArgumentCount, NameScreen, OperationScreen, Parsed, IdOf, Redisplayed, TxIdText;
    RedisplayIs(c, v);
    match p {
      case Argument(i, a, k) =>
        SomethingToPrint(c, i, a, k);
      case _ =>
    }
  }

  /** One tick and the redisplay behind it go from each screen of the review to the next. */
  lemma RoundAdvances(c: Content, v: View, p: Position)
    requires WellFormed(c) && OnCycle(c, p) && Stands(c, v, p)
    ensures Round(c, v).Some? && Stands(c, Round(c, v).value, Next(c, p)) && OnCycle(c, Next(c, p))
  {
    hide Stands, Due, OnCycle, Next, Redisplayed, Ticked, WellFormed;
    TickDue(c, v, p);
    ShowsWhatIsDue(c, Ticked(c, v), Next(c, p));
  }

  // ---- where a screen lies on the cycle ----

  /** Screens of the first a arguments of operation i, each with its header and its parts. */
  function ArgumentScreens(c: Content, i: nat, a: nat): nat {
    if a == 0 then 0 else ArgumentScreens(c, i, a - 1) + 1 + PartsOf(c, i, a - 1)
  }

  /** Screens of the first n operations, each with its name. */
  function OperationScreens(c: Content, n: nat): nat {
    if n == 0 then 0 else OperationScreens(c, n - 1) + 1 + ArgumentScreens(c, n - 1, Arguments(c, n - 1))
  }

  function Period(c: Content): nat {
    2 + OperationScreens(c, |c.ids|)
  }

  function Index(c: Content, p: Position): nat {
    match p
    case Confirm => 0
    case TxId => 1
    case Name(i) => 2 + OperationScreens(c, i)
    case Argument(i, a, k) => 2 + OperationScreens(c, i) + 1 + ArgumentScreens(c, i, a) + k
  }

  lemma {:induction false} ArgumentsGrow(c: Content, i: nat, a: nat, b: nat)
    requires a < b
    ensures ArgumentScreens(c, i, a) + 1 + PartsOf(c, i, a) <= ArgumentScreens(c, i, b)
  {
    hide PartsOf;
    if a < b - 1 {
      ArgumentsGrow(c, i, a, b - 1);
    }
  }

  lemma {:induction false} OperationsGrow(c: Content, m: nat, n: nat)
    requires m < n
    ensures OperationScreens(c, m) + 1 + ArgumentScreens(c, m, Arguments(c, m)) <= OperationScreens(c, n)
  {
    hide ArgumentScreens;
    if m < n - 1 {
      OperationsGrow(c, m, n - 1);
    }
  }

  /** A position comes before the end of its operation, and that before the end of the cycle. */
  lemma IndexBelow(c: Content, p: Position)
    requires OnCycle(c, p)
    ensures Index(c, p) < Period(c)
    ensures p.Argument? ==>
      Index(c, p) < 2 + OperationScreens(c, p.op) + 1 + ArgumentScreens(c, p.op, Arguments(c, p.op))
  {
    hide PartsOf, Arguments, ArgumentScreens, OperationScreens;
    match p {
      case Confirm =>
      case TxId =>
      case Name(i) =>
        OperationsGrow(c, i, |c.ids|);
      case Argument(i, a, k) =>
        ArgumentsGrow(c, i, a, Arguments(c, i));
        OperationsGrow(c, i, |c.ids|);
    }
  }

  /** Positions in the same place of the cycle are the same. */
  lemma IndexTells(c: Content, p: Position, q: Position)
    requires OnCycle(c, p) && OnCycle(c, q) && Index(c, p) == Index(c, q)
    ensures p == q
  {
    hide PartsOf, Arguments, ArgumentScreens, OperationScreens;
    IndexBelow(c, p);
    IndexBelow(c, q);
    if (p.Name? || p.Argument?) && (q.Name? || q.Argument?) {
      if p.op < q.op {
        OperationsGrow(c, p.op, q.op);
      } else if q.op < p.op {
        OperationsGrow(c, q.op, p.op);
      } else if p.Argument? && q.Argument? {
        if p.arg < q.arg {
          ArgumentsGrow(c, p.op, p.arg, q.arg);
        } else if q.arg < p.arg {
          ArgumentsGrow(c, p.op, q.arg, p.arg);
        }
      }
    }
  }

  lemma NextOnCycle(c: Content, p: Position)
    requires OnCycle(c, p) && c.ids != []
    ensures OnCycle(c, Next(c, p))
  {
    hide PartsOf, ParserOf, ArgumentCount, IdOf;
    match p {
      case Argument(i, a, k) =>
      case Name(i) =>
        AllCount(IdOf(c, i));
      case _ =>
    }
  }

  /** Each screen is one further along the cycle than the one before it. */
  lemma NextIndex(c: Content, p: Position)
    requires OnCycle(c, p) && c.ids != []
    ensures Index(c, Next(c, p)) == if Index(c, p) + 1 == Period(c) then 0 else Index(c, p) + 1
  {
    hide PartsOf, Arguments, OnCycle;
    NextOnCycle(c, p);
    IndexBelow(c, Next(c, p));
    match p {
      case Argument(i, a, k) =>
        InRange(c, i, a, k);
        if k == PartsOf(c, i, a) {
          assert ArgumentScreens(c, i, a + 1) == ArgumentScreens(c, i, a) + 1 + k;
          assert OperationScreens(c, i + 1) == OperationScreens(c, i) + 1 + ArgumentScreens(c, i, Arguments(c, i));
        }
      case _ =>
    }
  }

  lemma InRange(c: Content, i: nat, a: nat, k: nat)
    requires OnCycle(c, Argument(i, a, k))
    ensures i < |c.ids| && a < Arguments(c, i) && k <= PartsOf(c, i, a)
  {
  }

  // ---- the whole review ----

  /** The screen after k rounds. */
  function Walk(c: Content, k: nat): Position {
    if k == 0 then Confirm else Next(c, Walk(c, k - 1))
  }

  ghost function Rounds(c: Content, v: View, k: nat): Option<View> {
    if k == 0 then Some(v) else
      var t :- Rounds(c, v, k - 1);
      Round(c, t)
  }

  /** The place on the cycle advances by one with every round, and comes back to 0 after a period. */
  lemma {:induction false} WalkIndex(c: Content, k: nat)
    requires WellFormed(c)
    ensures OnCycle(c, Walk(c, k)) && Index(c, Walk(c, k)) == k % Period(c)
  {
    hide Index, OnCycle, Next, Period;
    if k == 0 {
      StartIndex(c);
    } else {
      WalkIndex(c, k - 1);
      NextIndex(c, Walk(c, k - 1));
      NextOnCycle(c, Walk(c, k - 1));
      IndexBelow(c, Walk(c, k - 1));
      ModStep(k - 1, Period(c));
    }
  }

  lemma StartIndex(c: Content)
    ensures OnCycle(c, Confirm) && Index(c, Confirm) == 0 && Period(c) > 1
  {
  }

  lemma ModStep(k: nat, m: nat)
    requires m > 0
    ensures (k + 1) % m == if k % m + 1 == m then 0 else k % m + 1
  {
    var q, r := k / m, k % m;
    QuotientRest(k, m);
    if r + 1 == m {
      OneMultipleMore(q, m);
      DivModUnique(k + 1, m, q + 1, 0);
    } else {
      DivModUnique(k + 1, m, q, r + 1);
    }
  }

  /**
   * The review of every well-formed transaction, for any number of rounds: printing never fails, and after k rounds the
   * display shows the screen in place k modulo the period. The places are taken by Confirm, the transaction id, and for
   * each operation its name and every argument in order, a present permission or present options in all their parts.
   */
  lemma {:induction false} ReviewCycles(c: Content, v: View, k: nat)
    requires WellFormed(c) && Stands(c, v, Confirm)
    ensures Rounds(c, v, k).Some? && Stands(c, Rounds(c, v, k).value, Walk(c, k))
    ensures Seen(Rounds(c, v, k).value) == Expected(c, Walk(c, k))
  {
    hide Round, Next, OnCycle, WellFormed, Expected, Seen;
    if k > 0 {
      ReviewCycles(c, v, k - 1);
      WalkIndex(c, k - 1);
      RoundAdvances(c, Rounds(c, v, k - 1).value, Walk(c, k - 1));
    }
  }

  /** From any moment on, every screen of every operation is shown within one period, at exactly one round of it. */
  lemma EveryScreenAppears(c: Content, v: View, p: Position, k: nat) returns (j: nat)
    requires WellFormed(c) && Stands(c, v, Confirm) && OnCycle(c, p)
    ensures k <= j < k + Period(c) && Walk(c, j) == p
    ensures Rounds(c, v, j).Some? && Seen(Rounds(c, v, j).value) == Expected(c, p)
    ensures forall i :: k <= i < k + Period(c) && Walk(c, i) == p ==> i == j
  {
    hide Index, OnCycle, Period, Walk, Rounds, Stands, WellFormed, Expected;
    IndexBelow(c, p);
    var m, x := Period(c), Index(c, p);
    j := Reached(k, m, x);
    WalkIndex(c, j);
    IndexTells(c, Walk(c, j), p);
    ReviewCycles(c, v, j);
    forall i | k <= i < k + m && Walk(c, i) == p ensures i == j {
      WalkIndex(c, i);
      SameResidue(i, j, m);
    }
  }

  /** The first number from k on with residue x. */
  lemma Reached(k: nat, m: nat, x: nat) returns (j: nat)
    requires x < m
    ensures k <= j < k + m && j % m == x
  {
    var q, r := k / m, k % m;
    QuotientRest(k, m);
    if r <= x {
      j := q * m + x;
      DivModUnique(j, m, q, x);
    } else {
      j := (q + 1) * m + x;
      OneMultipleMore(q, m);
      DivModUnique(j, m, q + 1, x);
    }
  }

  lemma SameResidue(i: nat, j: nat, m: nat)
    requires m > 0 && i % m == j % m && -(m as int) < i - j < m
    ensures i == j
  {
    var a, b := i / m, j / m;
    QuotientRest(i, m);
    QuotientRest(j, m);
    if a > b {
      MultiplesApart(a, b, m);
    } else if b > a {
      MultiplesApart(b, a, m);
    }
  }

  lemma QuotientRest(i: nat, m: nat)
    requires m > 0
    ensures i == i / m * m + i % m
  {
  }

  lemma MultiplesApart(a: nat, b: nat, m: nat)
    requires a > b
    ensures a * m >= b * m + m
  {
    MulMono(b + 1, a, m, m);
    OneMultipleMore(b, m);
  }

  lemma OneMultipleMore(b: nat, m: nat)
    ensures (b + 1) * m == b * m + m
  {
  }
}
