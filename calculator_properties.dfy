/** What the calculator's updaters promise, proved about the model:
    the freeze while an AI request is out, number entry, the single decimal
    point, the operator chain, the error state, the bounded history log and
    the re-load of history entries. */
module CalculatorProperties {
  import opened Types
  import opened JsString
  import opened Calculator

  // -----------------------------------------------------------------------
  // Facts about rendered results

  /** A rendered finite result is never the sentinel, never blank or padded,
      and holds neither history delimiter. */
  lemma NumeralFacts(x: Numeral)
    ensures x != ErrorText && !IsBlank(x) && Trimmed(x)
    ensures '=' !in x && Arrow !in x
  {
    assert IsNumeralChar(x[0]) && IsNumeralChar(x[|x| - 1]);
    assert !AllWhitespace(x);
    assert ErrorText[0] == 'E';
    assert forall i :: 0 <= i < |x| ==> x[i] != '=' && x[i] != Arrow by {
      forall i | 0 <= i < |x| ensures x[i] != '=' && x[i] != Arrow {
        assert IsNumeralChar(x[i]);
      }
    }
  }

  // -----------------------------------------------------------------------
  // The invariant and the freeze

  /** Every updater keeps "operator pending exactly when an operand is
      banked" and the five-entry bound on the history. */
  lemma StepKeepsWellFormed(ar: Arithmetic, s: CalculatorState, e: Event)
    requires WellFormed(s)
    ensures WellFormed(Step(ar, s, e))
  {
  }

  lemma {:induction false} RunKeepsWellFormed(ar: Arithmetic, s: CalculatorState, events: seq<Event>)
    requires WellFormed(s)
    ensures WellFormed(Run(ar, s, events))
    decreases |events|
  {
    if events != [] {
      StepKeepsWellFormed(ar, s, events[0]);
      RunKeepsWellFormed(ar, Step(ar, s, events[0]), events[1..]);
    }
  }

  /** Every snapshot reachable from the start state is well formed. */
  lemma Reachable(ar: Arithmetic, events: seq<Event>)
    ensures WellFormed(Run(ar, Initial(), events))
  {
    RunKeepsWellFormed(ar, Initial(), events);
  }

  /** Under the invariant the operator key never reaches its final
      `return prev`: once it is not blocked it either leaves the new
      operator pending or shows the error state. */
  lemma OperatorNeverFallsThrough(ar: Arithmetic, s: CalculatorState, next: Op)
    requires Consistent(s) && !Blocked(s)
    ensures var r := OperatorPress(ar, s, next);
      r.operator == Some(next) || r == ShowError(s)
  {
  }

  /** While an AI request is out, any sequence of digit, decimal, operator
      and equals keys leaves the state exactly as it was. */
  lemma {:induction false} FrozenWhileAIProcessing(ar: Arithmetic, s: CalculatorState, events: seq<Event>)
    requires s.isAIProcessing
    requires forall i :: 0 <= i < |events| ==> IsArithmetic(events[i])
    ensures Run(ar, s, events) == s
    decreases |events|
  {
    if events != [] {
      assert IsArithmetic(events[0]);
      assert Step(ar, s, events[0]) == s;
      FrozenWhileAIProcessing(ar, s, events[1..]);
    }
  }

  /** Only the AI request itself sets or clears the AI flag; clear and
      history selection leave it alone. */
  lemma AIFlag(ar: Arithmetic, s: CalculatorState, e: Event)
    ensures Step(ar, s, e).isAIProcessing ==
      if e.AIRequestSent? then true
      else if e.AIAnswered? || e.AIRequestFailed? then false
      else s.isAIProcessing
  {
  }

  // -----------------------------------------------------------------------
  // Number entry

  /** A digit on "Error", or when a second operand is awaited, becomes the
      whole display; otherwise a lone "0" is replaced and anything else is
      extended. */
  lemma DigitEntry(s: CalculatorState, digit: string)
    requires !s.isAIProcessing
    ensures var r := Digit(s, digit);
      && !r.isWaitingForSecondOperand
      && (s.display == ErrorText || s.isWaitingForSecondOperand ==> r.display == digit)
      && (s.display != ErrorText && !s.isWaitingForSecondOperand ==>
            r.display == if s.display == "0" then digit else s.display + digit)
  {
  }

  predicate IsDigitChar(c: char) {
    '0' <= c <= '9'
  }

  predicate AllDigits(ds: string) {
    forall i :: 0 <= i < |ds| ==> IsDigitChar(ds[i])
  }

  /** One digit key per character of `ds`. */
  function DigitKeys(ds: string): (events: seq<Event>)
    ensures |events| == |ds|
  {
    if ds == [] then [] else [DigitKey([ds[0]])] + DigitKeys(ds[1..])
  }

  function DropLeadingZeros(ds: string): string {
    if ds != [] && ds[0] == '0' then DropLeadingZeros(ds[1..]) else ds
  }

  /** The number shown after typing `ds` into a fresh display: `ds` without
      its leading zeros, or "0" when nothing else is left. */
  function EnteredNumber(ds: string): string {
    var t := DropLeadingZeros(ds);
    if t == [] then "0" else t
  }

  /** Typing digits onto a number already being entered appends them. */
  lemma {:induction false} TypingExtends(ar: Arithmetic, s: CalculatorState, ds: string)
    requires !s.isAIProcessing && !s.isWaitingForSecondOperand
    requires s.display != "0" && s.display != ErrorText && s.display != []
    requires AllDigits(ds)
    ensures Run(ar, s, DigitKeys(ds)) == s.(display := s.display + ds)
    decreases |ds|
  {
    if ds == [] {
      assert s.display + ds == s.display;
    } else {
      var events := DigitKeys(ds);
      assert events[0] == DigitKey([ds[0]]) && events[1..] == DigitKeys(ds[1..]);
      var t := Step(ar, s, events[0]);
      assert t == s.(display := s.display + [ds[0]]);
      assert t.display != ErrorText by {
        assert t.display[|t.display| - 1] == ds[0];
        assert ErrorText[|ErrorText| - 1] == 'r';
      }
      assert AllDigits(ds[1..]) by {
        forall i | 0 <= i < |ds| - 1 ensures IsDigitChar(ds[1..][i]) {
          assert ds[1..][i] == ds[i + 1];
        }
      }
      TypingExtends(ar, t, ds[1..]);
      assert t.display + ds[1..] == s.display + ds;
    }
  }

  /** Typing digits onto the display "0" shows them without leading zeros:
      "0", "0", "5" reads "5", and only zeros read "0". */
  lemma {:induction false} TypingFromZero(ar: Arithmetic, s: CalculatorState, ds: string)
    requires !s.isAIProcessing && !s.isWaitingForSecondOperand && s.display == "0"
    requires AllDigits(ds)
    ensures Run(ar, s, DigitKeys(ds)) == s.(display := EnteredNumber(ds))
    decreases |ds|
  {
    if ds != [] {
      var events := DigitKeys(ds);
      assert events[0] == DigitKey([ds[0]]) && events[1..] == DigitKeys(ds[1..]);
      var t := Step(ar, s, events[0]);
      assert t == s.(display := [ds[0]]);
      assert AllDigits(ds[1..]) by {
        forall i | 0 <= i < |ds| - 1 ensures IsDigitChar(ds[1..][i]) {
          assert ds[1..][i] == ds[i + 1];
        }
      }
      if ds[0] == '0' {
        assert t == s;
        TypingFromZero(ar, s, ds[1..]);
      } else {
        assert t.display != ErrorText;
        TypingExtends(ar, t, ds[1..]);
        assert [ds[0]] + ds[1..] == ds;
      }
    }
  }

  /** On "Error" or after an operator, an answer or a history selection,
      typing digits starts a new number, shown without leading zeros. */
  lemma TypingStartsFresh(ar: Arithmetic, s: CalculatorState, ds: string)
    requires !s.isAIProcessing && (s.display == ErrorText || s.isWaitingForSecondOperand)
    requires |ds| > 0 && AllDigits(ds)
    ensures Run(ar, s, DigitKeys(ds)) ==
      s.(display := EnteredNumber(ds), isWaitingForSecondOperand := false)
  {
    var events := DigitKeys(ds);
    assert events[0] == DigitKey([ds[0]]) && events[1..] == DigitKeys(ds[1..]);
    var t := Step(ar, s, events[0]);
    assert t == s.(display := [ds[0]], isWaitingForSecondOperand := false);
    assert AllDigits(ds[1..]) by {
      forall i | 0 <= i < |ds| - 1 ensures IsDigitChar(ds[1..][i]) {
        assert ds[1..][i] == ds[i + 1];
      }
    }
    if ds[0] == '0' {
      TypingFromZero(ar, t, ds[1..]);
    } else {
      TypingExtends(ar, t, ds[1..]);
      assert [ds[0]] + ds[1..] == ds;
    }
  }

  // -----------------------------------------------------------------------
  // The decimal point

  /** A digit key without a point keeps "at most one point" on the display. */
  lemma DigitKeepsOnePoint(s: CalculatorState, digit: string)
    requires '.' !in digit && DotCount(s.display) <= 1
    ensures DotCount(Digit(s, digit).display) <= 1
  {
    assert multiset(digit)['.'] == 0;
    assert multiset(s.display + digit) == multiset(s.display) + multiset(digit);
    assert DotCount(ErrorText) == 0;
  }

  /** The decimal key leaves exactly one point on an active display that had
      at most one; when waiting it starts "0.". */
  lemma DecimalEntry(s: CalculatorState)
    requires !s.isAIProcessing && s.display != ErrorText && DotCount(s.display) <= 1
    ensures var r := Decimal(s);
      && DotCount(r.display) == 1 && !r.isWaitingForSecondOperand
      && (s.isWaitingForSecondOperand ==> r.display == "0.")
      && (!s.isWaitingForSecondOperand && '.' !in s.display ==> r.display == s.display + ".")
      && ('.' in s.display && !s.isWaitingForSecondOperand ==> r == s)
  {
    assert multiset(s.display + ".") == multiset(s.display) + multiset{'.'};
    assert multiset("0.")['.'] == 1;
    if '.' in s.display {
      assert multiset(s.display)['.'] >= 1;
    }
  }

  /** Pressing the decimal key twice is the same as pressing it once. */
  lemma DecimalIdempotent(s: CalculatorState)
    ensures Decimal(Decimal(s)) == Decimal(s)
  {
    assert '.' in "0.";
    if !s.isAIProcessing && s.display != ErrorText && !s.isWaitingForSecondOperand && '.' !in s.display {
      assert (s.display + ".")[|s.display|] == '.';
    }
  }

  /** The keypad's own keys (digits, point, operators, equals, clear) and
      the start or failure of an AI request. */
  predicate IsKeypadOrFailure(e: Event) {
    || (e.DigitKey? && '.' !in e.digit)
    || e.DecimalKey? || e.OperatorKey? || e.EqualKey? || e.ClearKey?
    || e.AIRequestSent? || e.AIRequestFailed?
  }

  lemma StepKeepsOnePoint(ar: Arithmetic, s: CalculatorState, e: Event)
    requires IsKeypadOrFailure(e) && DotCount(s.display) <= 1
    ensures DotCount(Step(ar, s, e).display) <= 1
  {
    assert DotCount(ErrorText) == 0;
    match e
    case DigitKey(d) => DigitKeepsOnePoint(s, d);
    case DecimalKey =>
      if !s.isAIProcessing && s.display != ErrorText { DecimalEntry(s); }
    case OperatorKey(op) => OperatorKeepsOnePoint(ar, s, op);
    case EqualKey => EqualKeepsOnePoint(ar, s);
    case ClearKey => assert DotCount("0") == 0;
    case AIRequestSent =>
    case AIRequestFailed =>
  }

  lemma OperatorKeepsOnePoint(ar: Arithmetic, s: CalculatorState, next: Op)
    requires DotCount(s.display) <= 1
    ensures DotCount(OperatorPress(ar, s, next).display) <= 1
  {
    assert DotCount(ErrorText) == 0;
  }

  lemma EqualKeepsOnePoint(ar: Arithmetic, s: CalculatorState)
    requires DotCount(s.display) <= 1
    ensures DotCount(Equal(ar, s).display) <= 1
  {
    assert DotCount(ErrorText) == 0;
  }

  /** As long as only the keypad is used (no AI answer, no history
      selection), the display never holds more than one decimal point. */
  lemma {:induction false} KeypadKeepsOnePoint(ar: Arithmetic, s: CalculatorState, events: seq<Event>)
    requires DotCount(s.display) <= 1
    requires forall i :: 0 <= i < |events| ==> IsKeypadOrFailure(events[i])
    ensures DotCount(Run(ar, s, events).display) <= 1
    decreases |events|
  {
    if events != [] {
      StepKeepsOnePoint(ar, s, events[0]);
      KeypadKeepsOnePoint(ar, Step(ar, s, events[0]), events[1..]);
    }
  }

  // -----------------------------------------------------------------------
  // Operators

  /** An operator pressed while another is pending and no operand has been
      typed replaces the pending one and changes nothing else. */
  lemma RepeatedOperatorReplaces(ar: Arithmetic, s: CalculatorState, next: Op)
    requires !Blocked(s) && s.operator.Some? && s.isWaitingForSecondOperand
    ensures OperatorPress(ar, s, next) == s.(operator := Some(next))
  {
  }

  /** The first operator banks the display as the left operand and awaits
      the second one; display and history stay as they were. */
  lemma FirstOperatorBanks(ar: Arithmetic, s: CalculatorState, next: Op)
    requires !Blocked(s) && Consistent(s) && s.previousValue.None?
    ensures OperatorPress(ar, s, next) ==
      s.(previousValue := Some(s.display), operator := Some(next), isWaitingForSecondOperand := true)
  {
  }

  /** After a second operand, an operator evaluates the pending operation:
      the result is shown, logged and becomes the new left operand of the
      pressed operator. */
  lemma ChainedOperatorEvaluates(ar: Arithmetic, s: CalculatorState, next: Op, result: Numeral)
    requires !Blocked(s) && s.previousValue.Some? && s.operator.Some? && !s.isWaitingForSecondOperand
    requires Calculate(ar, s.previousValue.value, s.display, s.operator.value) == Some(result)
    ensures var r := OperatorPress(ar, s, next);
      && r.display == result && r.previousValue == Some(result) && r.operator == Some(next)
      && r.isWaitingForSecondOperand
      && r.history == PushHistory(s.history,
           CalculationEntry(s.previousValue.value, s.operator.value, s.display, result))
  {
  }

  /** Of two operators pressed in a row, only the last one counts: the pair
      has the same effect as the second alone, whatever state it starts
      from. */
  lemma LastOperatorWins(ar: Arithmetic, s: CalculatorState, first: Op, second: Op)
    ensures OperatorPress(ar, OperatorPress(ar, s, first), second) == OperatorPress(ar, s, second)
  {
    if !Blocked(s) && !(s.operator.Some? && s.isWaitingForSecondOperand)
       && s.previousValue.Some? && s.operator.Some? {
      match Calculate(ar, s.previousValue.value, s.display, s.operator.value)
      case None =>
      case Some(result) => NumeralFacts(result);
    }
  }

  /** Equals with a pending operation evaluates it, shows and logs the
      result, and ends the chain. */
  lemma EqualEvaluates(ar: Arithmetic, s: CalculatorState, result: Numeral)
    requires !Blocked(s) && s.previousValue.Some? && s.operator.Some?
    requires Calculate(ar, s.previousValue.value, s.display, s.operator.value) == Some(result)
    ensures var r := Equal(ar, s);
      && r.display == result && r.previousValue == None && r.operator == None
      && r.isWaitingForSecondOperand
      && r.history == PushHistory(s.history,
           CalculationEntry(s.previousValue.value, s.operator.value, s.display, result))
  {
  }

  // -----------------------------------------------------------------------
  // Non-finite results

  /** A non-finite result, from equals or from a chained operator, shows
      "Error", drops the pending operation and leaves the history alone. */
  lemma NonFiniteShowsError(ar: Arithmetic, s: CalculatorState, next: Op)
    requires !Blocked(s) && s.previousValue.Some? && s.operator.Some?
    requires Calculate(ar, s.previousValue.value, s.display, s.operator.value) == None
    ensures Equal(ar, s) == ShowError(s)
    ensures !s.isWaitingForSecondOperand ==> OperatorPress(ar, s, next) == ShowError(s)
  {
  }

  /** Dividing by an operand that parses to zero ends in the error state. */
  lemma DivisionByZeroShowsError(ar: Arithmetic, s: CalculatorState, next: Op)
    requires !Blocked(s) && s.previousValue.Some? && s.operator == Some(Divide)
    requires ar.parsesToZero(s.display)
    ensures var r := Equal(ar, s);
      r.display == ErrorText && r.previousValue == None && r.operator == None && r.history == s.history
    ensures !s.isWaitingForSecondOperand ==> OperatorPress(ar, s, next) == Equal(ar, s)
  {
    NonFiniteShowsError(ar, s, next);
  }

  // -----------------------------------------------------------------------
  // The history log

  /** Every updater either leaves the history alone or puts one new entry
      in front of it; only operators, equals and AI answers log. */
  lemma StepHistory(ar: Arithmetic, s: CalculatorState, e: Event)
    ensures var r := Step(ar, s, e);
      r.history == s.history || exists entry :: r.history == PushHistory(s.history, entry)
    ensures !(e.OperatorKey? || e.EqualKey? || e.AIAnswered?) ==> Step(ar, s, e).history == s.history
  {
    var r := Step(ar, s, e);
    if r.history != s.history {
      match e
      case OperatorKey(op) =>
        var result :| r.history == PushHistory(s.history,
          CalculationEntry(s.previousValue.value, s.operator.value, s.display, result));
      case EqualKey =>
        var result :| r.history == PushHistory(s.history,
          CalculationEntry(s.previousValue.value, s.operator.value, s.display, result));
      case AIAnswered(p, res, _) =>
        assert r.history == PushHistory(s.history, AIEntry(p, res));
    }
  }

  /** The history after logging `entries` one after another. */
  function LogAll(history: seq<string>, entries: seq<string>): seq<string>
    decreases |entries|
  {
    if entries == [] then history else LogAll(PushHistory(history, entries[0]), entries[1..])
  }

  function Reverse(s: seq<string>): (r: seq<string>)
    ensures |r| == |s|
  {
    if s == [] then [] else Reverse(s[1..]) + [s[0]]
  }

  lemma PrefixOfConcat(a: seq<string>, b: seq<string>, m: nat, k: nat)
    requires m <= |b| && k <= |a| + m
    ensures (a + b[..m])[..k] == (a + b)[..k]
  {
  }

  /** Logging entries one by one keeps the five most recent, newest first,
      followed by what is left of the old history. */
  lemma {:induction false} LogKeepsNewestFive(history: seq<string>, entries: seq<string>)
    requires |history| <= MaxHistory
    ensures LogAll(history, entries) ==
      (Reverse(entries) + history)[..Min(|entries| + |history|, MaxHistory)]
    decreases |entries|
  {
    if entries == [] {
      assert Reverse(entries) + history == history;
    } else {
      var b := [entries[0]] + history;
      var p := PushHistory(history, entries[0]);
      var a := Reverse(entries[1..]);
      LogKeepsNewestFive(p, entries[1..]);
      assert Reverse(entries) + history == a + b;
      assert p == b[..|p|];
      PrefixOfConcat(a, b, |p|, Min(|entries| - 1 + |p|, MaxHistory));
    }
  }

  /** Reversal puts the `k`-th element from the end at index `k`. */
  lemma {:induction false} ReverseAt(s: seq<string>, k: nat)
    requires k < |s|
    ensures Reverse(s)[k] == s[|s| - 1 - k]
  {
    if k < |s| - 1 {
      ReverseAt(s[1..], k);
    }
  }

  /** After six entries the first is gone and the last is at the front. */
  lemma SixthEntryEvictsOldest(entries: seq<string>)
    requires |entries| == 6
    ensures LogAll([], entries) == [entries[5], entries[4], entries[3], entries[2], entries[1]]
  {
    LogKeepsNewestFive([], entries);
    var r := LogAll([], entries);
    forall k | 0 <= k < 5 ensures r[k] == entries[5 - k] {
      ReverseAt(entries, k);
    }
  }

  // -----------------------------------------------------------------------
  // Re-loading a history entry

  /** An entry holding '=' reloads the trimmed text after its last '='. */
  lemma ReloadAfterLastEquals(s: CalculatorState, head: string, tail: string)
    requires '=' !in tail
    ensures LoadFromHistory(s, head + ['='] + tail).display == Trim(tail)
  {
    var entry := head + ['='] + tail;
    assert entry[|head|] == '=';
    LastPieceAfterSeparator(head, '=', tail);
  }

  /** An entry without '=' reloads the trimmed text after its last '→'. */
  lemma ReloadAfterLastArrow(s: CalculatorState, head: string, tail: string)
    requires '=' !in head + [Arrow] + tail && Arrow !in tail
    ensures LoadFromHistory(s, head + [Arrow] + tail).display == Trim(tail)
  {
    LastPieceAfterSeparator(head, Arrow, tail);
  }

  /** An entry with neither delimiter reloads whole, trimmed. */
  lemma ReloadWithoutDelimiter(s: CalculatorState, entry: string)
    requires '=' !in entry && Arrow !in entry
    ensures LoadFromHistory(s, entry).display == Trim(entry)
  {
    LastPieceWithoutSeparator(entry, Arrow);
  }

  /** Selecting a logged calculation puts its result back on the display. */
  lemma ReloadCalculation(s: CalculatorState, left: string, op: Op, right: string, result: Numeral)
    ensures LoadFromHistory(s, CalculationEntry(left, op, right, result)).display == result
  {
    NumeralFacts(result);
    var head := CalculationEntryEndsWithResult(left, op, right, result);
    ReloadAfterLastEquals(s, head, " " + result);
    TrimAfterSpace(result);
  }

  lemma CalculationEntryEndsWithResult(left: string, op: Op, right: string, result: string) returns (head: string)
    requires '=' !in result
    ensures CalculationEntry(left, op, right, result) == head + ['='] + (" " + result)
    ensures '=' !in " " + result
  {
    head := left + " " + [OpSymbol(op)] + " " + right + " ";
    assert " = " == " " + ['='] + " ";
  }

  lemma TrimAfterSpace(t: string)
    requires Trimmed(t)
    ensures Trim(" " + t) == t
  {
    assert " " + t == " " + t + [];
    TrimPadded(" ", t, []);
  }

  /** Selecting a logged AI answer puts the answer back on the display,
      provided neither the prompt nor the answer holds '=' and the answer
      holds no '→' and is not padded. */
  lemma ReloadAIAnswer(s: CalculatorState, prompt: string, result: string)
    requires '=' !in prompt && '=' !in result && Arrow !in result && Trimmed(result)
    ensures LoadFromHistory(s, AIEntry(prompt, result)).display == result
  {
    var head := AIEntryEndsWithResult(prompt, result);
    ReloadAfterLastArrow(s, head, " " + result);
    TrimAfterSpace(result);
  }

  lemma AIEntryEndsWithResult(prompt: string, result: string) returns (head: string)
    requires '=' !in prompt && '=' !in result && Arrow !in result
    ensures AIEntry(prompt, result) == head + [Arrow] + (" " + result)
    ensures '=' !in head + [Arrow] + (" " + result) && Arrow !in " " + result
  {
    head := "\"" + prompt + "\" ";
    var entry := head + [Arrow] + (" " + result);
    assert entry == "\"" + prompt + "\" " + [Arrow] + " " + result;
    forall i | 0 <= i < |entry| ensures entry[i] != '=' {
      if i < |head| {
        if 1 <= i < 1 + |prompt| { assert entry[i] == prompt[i - 1]; }
      } else if i > |head| + 1 {
        assert entry[i] == result[i - |head| - 2];
      }
    }
  }

  /** An AI entry whose prompt holds '=' is split on that '=' instead of on
      the arrow: the prompt "x=2" answered "2" reloads as `2" → 2`. */
  lemma ReloadAIPromptWithEquals(s: CalculatorState)
    ensures LoadFromHistory(s, AIEntry("x=2", "2")).display == "2\" " + [Arrow] + " 2"
  {
    var tail := "2\" " + [Arrow] + " 2";
    assert AIEntry("x=2", "2") == "\"x" + ['='] + tail;
    assert '=' !in tail;
    ReloadTrimmedAfterLastEquals(s, "\"x", tail);
  }

  lemma ReloadTrimmedAfterLastEquals(s: CalculatorState, head: string, tail: string)
    requires '=' !in tail && Trimmed(tail)
    ensures LoadFromHistory(s, head + ['='] + tail).display == tail
  {
    ReloadAfterLastEquals(s, head, tail);
    TrimOfTrimmed(tail);
  }

  /** "3 + 4 = 7" reloads "7". */
  lemma ReloadCalculationExample(s: CalculatorState)
    ensures LoadFromHistory(s, "3 + 4 = 7").display == "7"
  {
    assert IsNumeral("7");
    assert "3 + 4 = 7" == CalculationEntry("3", Add, "4", "7");
    ReloadCalculation(s, "3", Add, "4", "7");
  }

  /** The AI entry of "15% of 84" answered 12.6 reloads "12.6". */
  lemma ReloadAIExample(s: CalculatorState)
    ensures LoadFromHistory(s, "\"15% of 84\" " + [Arrow] + " 12.6").display == "12.6"
  {
    assert "\"15% of 84\" " + [Arrow] + " 12.6" == AIEntry("15% of 84", "12.6");
    assert '=' !in "15% of 84" && '=' !in "12.6" && Arrow !in "12.6";
    ReloadAIAnswer(s, "15% of 84", "12.6");
  }
}
