/**
 * The review as the device runs it: a timer, a redisplay of eight elements, and parsers that print into two buffers.
 */
module ScreenMachine {
  import opened Numerals
  import opened Outcomes
  import opened CText
  import opened Codec
  import opened ParseOperations
  import opened Screens
  import opened ScreenCycle
  import opened Restarts

  /** A countdown only runs while an argument with parts is on the display. */
  ghost predicate CountsParts(c: Content, v: View) {
    v.step >= 3 && v.remain > 0 ==>
      match Parsed(c, v.parser, v.current)
      case None => true
      case Some(op) => Parts(op, v.step - 3) > 0
  }

  /** `array_hexstr`. */
  method ArrayHexstr(b: array<char>, at: nat, bin: seq<byte>)
    requires at + 2 * |bin| < b.Length
    modifies b
    ensures b[at..at + 2 * |bin|] == Hex(bin) && b[at + 2 * |bin|] == '\0'
    ensures OnlyWithin(b, at, at + 2 * |bin| + 1)
  {
    hide Hex, HexDigit;
    var i := 0;
    HexNone();
    assert b[at..at] == "" && bin[..0] == [];
    while i < |bin|
      invariant 0 <= i <= |bin| && b[at..at + 2 * i] == Hex(bin[..i])
      invariant OnlyWithin(b, at, at + 2 * i)
    {
      TwoDigits(b, at + 2 * i, bin[i]);
      assert b[at..at + 2 * (i + 1)] == b[at..at + 2 * i] + b[at + 2 * i..at + 2 * i + 2];
      HexAppend(bin, i);
      i := i + 1;
    }
    assert bin[..i] == bin;
    b[at + 2 * i] := '\0';
    assert b[at..at + 2 * i] == Hex(bin);
  }

  lemma HexNone()
    ensures Hex([]) == ""
  {
  }

  method TwoDigits(b: array<char>, at: nat, v: byte)
    requires at + 2 <= b.Length
    modifies b
    ensures b[at..at + 2] == [HexDigit(v / 16), HexDigit(v % 16)] && OnlyWithin(b, at, at + 2)
    ensures b[..at] == old(b[..at])
  {
    hide HexDigit;
    b[at] := HexDigit(v / 16);
    b[at + 1] := HexDigit(v % 16);
  }

  lemma {:induction false} HexAppend(bin: seq<byte>, i: nat)
    requires i < |bin|
    ensures Hex(bin[..i + 1]) == Hex(bin[..i]) + [HexDigit(bin[i] / 16), HexDigit(bin[i] % 16)]
    decreases i
  {
    if i > 0 {
      HexAppend(bin[1..], i - 1);
      assert bin[..i + 1][1..] == bin[1..][..i] && bin[..i][1..] == bin[1..][..i - 1];
    } else {
      assert bin[..1][1..] == [];
    }
  }

  lemma {:induction false} HexText(bin: seq<byte>)
    ensures |Hex(bin)| == 2 * |bin| && NoEnd(Hex(bin))
  {
    if bin != [] {
      HexText(bin[1..]);
    }
  }

  /** `printTxId`. */
  method PrintTxId(b: array<char>, txIdHash: seq<byte>)
    requires b.Length == VALUE_SIZE && |txIdHash| == 32
    modifies b
    ensures IsText(b, 0, TxIdText(txIdHash))
    ensures b[6..9] == "..." && b[15] == '\0'
    ensures ByteAt(b[..15], 0) == txIdHash[0] && ByteAt(b[..15], 2) == txIdHash[1] && ByteAt(b[..15], 4) == txIdHash[2]
    ensures ByteAt(b[..15], 9) == txIdHash[17] && ByteAt(b[..15], 11) == txIdHash[18]
    ensures ByteAt(b[..15], 13) == txIdHash[19]
  {
    hide Hex, ByteAt;
    TxIdTold(txIdHash);
    var first, last := txIdHash[..3], txIdHash[17..20];
    HexText(first);
    HexText(last);
    forall k | 0 <= k < VALUE_SIZE { b[k] := '\0'; }
    ArrayHexstr(b, 0, first);
    forall k | 6 <= k < 9 { b[k] := '.'; }
    assert b[..9] == b[0..0 + 6] + "..." == Hex(first) + "...";
    ArrayHexstr(b, 9, last);
    assert b[..9] == Hex(first) + "...";
    assert b[0..15] == b[..9] + b[9..9 + 6];
  }

  class Review {
    const content: Content
    const paramLabel: array<char>
    const paramValue: array<char>
    var uxStep: nat
    var uxStepCount: nat
    var currentOperation: nat
    var argumentCount: nat
    var subargRemainP1: nat
    var operationParser: Parser

    ghost const Repr: set<object> := {this, paramLabel, paramValue}

    ghost predicate Ready() {
      Buffers(paramLabel, paramValue) && |content.txIdHash| == 32
    }

    ghost function Now(): View
      reads Repr
    {
      View(uxStep, uxStepCount, currentOperation, argumentCount, subargRemainP1, operationParser,
           TextOf(paramLabel[..]), TextOf(paramValue[..]))
    }

    /** Where `handleSign` leaves off: nothing of an operation has been looked at yet. */
    constructor (content: Content)
      requires WellFormed(content)
      ensures this.content == content && Ready() && fresh(Repr)
      ensures Stands(content, Now(), Confirm)
    {
      this.content := content;
      paramLabel := new char[LABEL_SIZE](_ => '\0');
      paramValue := new char[VALUE_SIZE](_ => '\0');
      uxStep := 0;
      uxStepCount := 3 + 0;
      currentOperation := 0;
      argumentCount := 0;
      subargRemainP1 := 0;
      operationParser := NoParser;
    }

    /** The end of `handleSign`, which leaves the operation and the countdown alone. */
    method Restart()
      requires Ready()
      modifies this`uxStep, this`uxStepCount
      ensures Now() == Restarted(old(Now()))
      ensures uxStep == 0 && uxStepCount == 3 + argumentCount
    {
      hide TextOf;
      uxStep := 0;
      uxStepCount := 3 + argumentCount;
    }

    /** `updateOperationContent`. */
    method UpdateOperationContent()
      requires Ready() && currentOperation < |content.ids|
      modifies Repr
      ensures Now() == Updated(content, old(Now()))
    {
      hide EarlierName, LaterName, ParserOf, ArgumentCount, Decimal, TextOf, Cut;
      var opId := content.ids[currentOperation];
      operationParser := ParserOf(opId);
      argumentCount := ArgumentCount(operationParser);
      NameNoEnd(opId);
      Snprintf(paramValue, 0, VALUE_SIZE, OperationName(opId));
      var title := "Operation " + Decimal(currentOperation + 1) + " of " + Decimal(|content.ids|);
      TitleNoEnd(currentOperation + 1, |content.ids|);
      Snprintf(paramLabel, 0, LABEL_SIZE, title);
      IsTextOf(paramLabel, Cut(title, LABEL_SIZE - 1));
      IsTextOf(paramValue, Cut(OperationName(opId), VALUE_SIZE - 1));
    }

    /** The part of the timer event that moves to another step, and to another operation behind the last step of one. */
    method Move()
      requires Ready() && currentOperation < |content.ids|
      modifies this`uxStep, this`subargRemainP1, this`currentOperation
      ensures Now() == Moved(content, old(Now())) && currentOperation < |content.ids|
    {
      hide TextOf;
      uxStep := uxStep + 1;
      if uxStep > 2 {
        if subargRemainP1 > 1 {
          uxStep := uxStep - 1;
        }
        if subargRemainP1 > 0 {
          subargRemainP1 := subargRemainP1 - 1;
        }
      }
      if uxStep >= uxStepCount {
        currentOperation := (currentOperation + 1) % |content.ids|;
        if currentOperation != 0 {
          uxStep := 2;
        } else {
          uxStep := 0;
        }
      }
    }

    /** The timer event while a transaction is being reviewed. */
    method Tick()
      requires Ready() && currentOperation < |content.ids|
      modifies Repr
      ensures Now() == Ticked(content, old(Now())) && currentOperation < |content.ids|
    {
      hide Updated, Moved, TextOf, IdOf, NameScreen;
      if uxStepCount != 0 {
        Move();
        if uxStep == 2 {
          UpdateKeeps(content, Now());
          UpdateOperationContent();
          uxStepCount := 3 + argumentCount;
        }
      }
    }

    /** `printTxOpArgument`. */
    method PrintTxOpArgument(argNum: nat) returns (r: Result<()>)
      requires Ready() && From(content, currentOperation) + Size(content, currentOperation) < UINT32
      requires uxStep == argNum + 3 && CountsParts(content, Now())
      modifies Repr
      ensures match ArgumentPrinted(content, old(Now()), argNum)
        case None => r.Throw? && operationParser == old(operationParser)
        case Some(v) => r.Ok? && Now() == v
    {
      hide TextOf, AccountUpdateScreen, TransferScreen, LimitOrderCreateScreen, LimitOrderCancelScreen,
           AccountUpgradeScreen, UnsupportedScreen, UnknownScreen, Subscreens, TransferIn, LimitOrderCreateIn,
           LimitOrderCancelIn, AccountUpdateIn, AccountUpgradeIn, Window, IsText;
      var offset := From(content, currentOperation);
      var bufferLength := Size(content, currentOperation);
      var mem := content.mem;
      r := Ok(());
      match operationParser {
        case NoParser => return Throw(Exception);
        case TransferParser =>
          r := ParseTransferOperation(mem, offset, bufferLength, argNum, paramLabel, paramValue);
        case LimitOrderCreateParser =>
          r := ParseLimitOrderCreateOperation(mem, offset, bufferLength, argNum, paramLabel, paramValue);
        case LimitOrderCancelParser =>
          r := ParseLimitOrderCancelOperation(mem, offset, bufferLength, argNum, paramLabel, paramValue);
        case AccountUpdateParser =>
          r, subargRemainP1 := ParseAccountUpdateOperation(mem, offset, bufferLength, argNum, subargRemainP1,
              paramLabel,
                                                           paramValue, content.ripemd);
        case AccountUpgradeParser =>
          r := ParseAccountUpgradeOperation(mem, offset, bufferLength, argNum, paramLabel, paramValue);
        case UnsupportedParser =>
          ParseUnsupportedOperation(argNum, paramLabel, paramValue);
        case UnknownParser =>
          ParseUnknownOperation(argNum, paramLabel, paramValue);
      }
      ShownTexts();
    }

    /** `ui_approval_prepro`: whether the element is displayed, and what has to be printed for it first. */
    method Prepro(userid: nat) returns (r: Result<bool>)
      requires Ready() && From(content, currentOperation) + Size(content, currentOperation) < UINT32
      requires CountsParts(content, Now())
      modifies Repr
      ensures match Prepared(content, old(Now()), userid)
        case None => r.Throw?
        case Some(v) => r == Ok(Displays(v, userid)) && Now() == v && CountsParts(content, v)
    {
      hide ArgumentPrinted, TxIdText, TextOf, CountsParts, IsText;
      var display := if uxStep > 3 && userid == 4 then true else uxStep + 1 == userid;
      if display {
        if userid == 2 {
          PrintTxId(paramValue, content.txIdHash);
          IsTextOf(paramValue, TxIdText(content.txIdHash));
          NoCountBelow3(content, Now());
        } else if userid == 4 {
          PrintingKeeps(content, Now(), uxStep - 3);
          var _ :- PrintTxOpArgument(uxStep - 3);
        }
      }
      return Ok(display);
    }

    /** The redisplay of the approval screen. */
    method Redisplay() returns (r: Result<()>)
      requires Ready() && WellFormed(content) && currentOperation < |content.ids| && CountsParts(content, Now())
      modifies Repr
      ensures match Redisplayed(content, old(Now()), 0)
        case None => r.Throw?
        case Some(v) => r.Ok? && Now() == v
    {
      hide Prepared, CountsParts, WellFormed;
      ghost var start := Now();
      WindowsFit(content, currentOperation);
      for k := 0 to |ELEMENTS|
        invariant Redisplayed(content, Now(), k) == Redisplayed(content, start, 0)
        invariant CountsParts(content, Now()) && currentOperation == start.current
      {
        PreparedKeeps(content, Now(), ELEMENTS[k]);
        var _ :- Prepro(ELEMENTS[k]);
      }
      return Ok(());
    }

    /** One tick and what it shows: the review moves to the next screen. */
    method Round(ghost p: Position)
      requires Ready() && WellFormed(content) && OnCycle(content, p) && Stands(content, Now(), p)
      modifies Repr
      ensures Stands(content, Now(), Next(content, p)) && OnCycle(content, Next(content, p))
    {
      hide WellFormed, OnCycle, Stands, Ticked, Redisplayed, CountsParts;
      RoundAdvances(content, Now(), p);
      CurrentInRange(content, Now(), p);
      TickDue(content, Now(), p);
      DueCounts(content, Ticked(content, Now()), Next(content, p));
      Tick();
      var _ := Redisplay();
    }

    /** Watching the display: after j rounds it shows the screen in place j of the cycle, for as long as one looks. */
    method Watch(rounds: nat) returns (screens: seq<Screen>)
      requires Ready() && WellFormed(content) && Stands(content, Now(), Confirm)
      modifies Repr
      ensures |screens| == rounds + 1
      ensures forall j :: 0 <= j <= rounds ==> screens[j] == Expected(content, Walk(content, j))
    {
      hide WellFormed, OnCycle, Next, Expected, Stands, Period;
      StartIndex(content);
      screens := [Screen("Confirm", "Transaction")];
      ghost var p := Confirm;
      assert screens[0] == Expected(content, Confirm) by { ConfirmFirst(content); }
      for k := 0 to rounds
        invariant p == Walk(content, k) && OnCycle(content, p) && Stands(content, Now(), p)
        invariant |screens| == k + 1 && forall j :: 0 <= j <= k ==> screens[j] == Expected(content, Walk(content, j))
      {
        Round(p);
        p := Next(content, p);
        StandsSeen(content, Now(), p);
        screens := screens + [Display()];
      }
    }

    /** What is to be read on the display. */
    function Display(): (s: Screen)
      reads Repr
      ensures s == Seen(Now())
    {
      if uxStep == 0 then Screen("Confirm", "Transaction")
      else if uxStep == 1 then Screen("Tx ID", TextOf(paramValue[..]))
      else Screen(TextOf(paramLabel[..]), TextOf(paramValue[..]))
    }

    lemma ShownTexts()
      ensures forall s :: Shows(paramLabel, paramValue, s) ==>
        TextOf(paramLabel[..]) == s.title && TextOf(paramValue[..]) == s.text
    {
      forall s | Shows(paramLabel, paramValue, s)
        ensures TextOf(paramLabel[..]) == s.title && TextOf(paramValue[..]) == s.text
      {
        IsTextOf(paramLabel, s.title);
        IsTextOf(paramValue, s.text);
      }
    }
  }

  lemma StandsSeen(c: Content, v: View, p: Position)
    requires Stands(c, v, p)
    ensures Seen(v) == Expected(c, p)
  {
  }

  lemma ConfirmFirst(c: Content)
    ensures Expected(c, Confirm) == Screen("Confirm", "Transaction")
  {
  }

  lemma WindowsFit(c: Content, i: nat)
    requires WellFormed(c) && i < |c.ids|
    ensures From(c, i) + Size(c, i) < UINT32
  {
    hide Parsed, ParserOf;
    assert From(c, i) <= c.offsets[i] < UINT32;
  }

  lemma PreparedKeeps(c: Content, v: View, userid: nat)
    requires CountsParts(c, v)
    ensures Prepared(c, v, userid).Some? ==> Prepared(c, v, userid).value.current == v.current
  {
    hide ArgumentPrinted, CountsParts;
    if v.step >= 3 {
      PrintingKeeps(c, v, v.step - 3);
    }
  }

  lemma CurrentInRange(c: Content, v: View, p: Position)
    requires WellFormed(c) && OnCycle(c, p) && Stands(c, v, p)
    ensures v.current < |c.ids| && Ticked(c, v).current < |c.ids|
  {
    hide Parsed, ParserOf, Seen, Expected, Updated, PartsOf, Arguments;
    var t := v.(current := 0);
    UpdateKeepsCurrent(c);
  }

  lemma UpdateKeepsCurrent(c: Content)
    ensures forall v :: Updated(c, v).current == v.current
  {
  }

  /** Before a redisplay too, a countdown only runs over parts. */
  lemma DueCounts(c: Content, v: View, p: Position)
    requires WellFormed(c) && OnCycle(c, p) && Due(c, v, p)
    ensures CountsParts(c, v)
  {
    hide ParserOf, NameScreen, OperationScreen, OperationIn, Payload, Parts, ArgumentCount, IdOf;
    if p.Argument? {
      PartsParsed(c, p.op, p.arg);
    }
  }

  lemma PartsParsed(c: Content, i: nat, a: nat)
    ensures var op := Parsed(c, ParserOf(IdOf(c, i)), i); op.Some? ==> Parts(op.value, a) == PartsOf(c, i, a)
  {
  }

  lemma NoCountBelow3(c: Content, v: View)
    requires v.step < 3
    ensures CountsParts(c, v)
  {
  }

  /** Printing an argument changes neither the step nor the operation, and only starts a countdown over parts. */
  lemma PrintingKeeps(c: Content, v: View, arg: nat)
    requires v.step == arg + 3 && CountsParts(c, v)
    ensures var p := ArgumentPrinted(c, v, arg);
      p.Some? ==> p.value.step == v.step && p.value.current == v.current && CountsParts(c, p.value)
  {
    hide OperationScreen, Parts, OperationIn, Payload;
  }

  lemma NameNoEnd(id: nat)
    ensures NoEnd(OperationName(id))
  {
    hide EarlierName, LaterName;
    if id < 7 {
      FirstNames(id);
    } else if id < 13 {
      SecondNames(id);
    } else if id < 19 {
      ThirdNames(id);
    } else if id < 25 {
      FourthNames(id);
    } else if id < 28 {
      FifthNames(id);
    } else if id < 31 {
      SixthNames(id);
    } else if id == 31 {
      LongestName();
    } else if id < 37 {
      SeventhNames(id);
    } else if id < 43 {
      EighthNames(id);
    } else {
      LastNames(id);
    }
  }

  lemma FirstNames(id: nat)
    requires id < 7
    ensures NoEnd(EarlierName(id))
  {
  }

  lemma SecondNames(id: nat)
    requires 7 <= id < 13
    ensures NoEnd(EarlierName(id))
  {
  }

  lemma ThirdNames(id: nat)
    requires 13 <= id < 19
    ensures NoEnd(EarlierName(id))
  {
  }

  lemma FourthNames(id: nat)
    requires 19 <= id < 25
    ensures NoEnd(EarlierName(id))
  {
  }

  lemma FifthNames(id: nat)
    requires 25 <= id < 28
    ensures NoEnd(LaterName(id))
  {
  }

  lemma SixthNames(id: nat)
    requires 28 <= id < 31
    ensures NoEnd(LaterName(id))
  {
  }

  lemma LongestName()
    ensures NoEnd(LaterName(31))
  {
  }

  lemma SeventhNames(id: nat)
    requires 31 < id < 37
    ensures NoEnd(LaterName(id))
  {
  }

  lemma EighthNames(id: nat)
    requires 37 <= id < 43
    ensures NoEnd(LaterName(id))
  {
  }

  lemma LastNames(id: nat)
    requires 43 <= id
    ensures NoEnd(LaterName(id))
  {
  }

  lemma TitleNoEnd(i: nat, n: nat)
    ensures NoEnd("Operation " + Decimal(i) + " of " + Decimal(n))
  {
    hide Decimal;
    DecimalNoEnd(i);
    DecimalNoEnd(n);
  }

  lemma UpdateKeeps(c: Content, v: View)
    ensures var u := Updated(c, v);
      u.step == v.step && u.stepCount == v.stepCount && u.current == v.current && u.remain == v.remain
  {
  }
}
