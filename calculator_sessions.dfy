/** Whole sessions of key presses, run from the start state through the
    updaters. The keys and the operators are arbitrary; the arithmetic is
    constrained only where a session needs a result. */
module CalculatorSessions {
  import opened Types
  import opened JsString
  import opened Calculator
  import opened CalculatorProperties

  /** A key text the operator and equals keys accept on the display: not
      the sentinel and not blank. Every keypad digit is one. */
  predicate Typed(x: string) {
    x != ErrorText && !IsBlank(x)
  }

  // -----------------------------------------------------------------------
  // Running events

  /** Running events: the first one, then the rest. */
  lemma RunCons(ar: Arithmetic, s: CalculatorState, e: Event, rest: seq<Event>)
    ensures Run(ar, s, [e] + rest) == Run(ar, Step(ar, s, e), rest)
  {
    assert ([e] + rest)[1..] == rest;
  }

  /** Running one sequence after another is running their concatenation. */
  lemma {:induction false} RunAppend(ar: Arithmetic, s: CalculatorState, xs: seq<Event>, ys: seq<Event>)
    ensures Run(ar, s, xs + ys) == Run(ar, Run(ar, s, xs), ys)
    decreases |xs|
  {
    if xs == [] {
      assert xs + ys == ys;
    } else {
      assert xs + ys == [xs[0]] + (xs[1..] + ys);
      assert xs == [xs[0]] + xs[1..];
      RunCons(ar, s, xs[0], xs[1..] + ys);
      RunCons(ar, s, xs[0], xs[1..]);
      RunAppend(ar, Step(ar, s, xs[0]), xs[1..], ys);
    }
  }

  /** Two events, one updater after the other. */
  lemma Run2(ar: Arithmetic, s: CalculatorState, a: Event, b: Event)
    ensures Run(ar, s, [a, b]) == Step(ar, Step(ar, s, a), b)
  {
    assert [a, b] == [a] + [b];
    assert [b] == [b] + [];
    RunCons(ar, s, a, [b]);
    RunCons(ar, Step(ar, s, a), b, []);
  }

  /** Four events, one updater after another. */
  lemma Run4(ar: Arithmetic, s: CalculatorState, a: Event, b: Event, c: Event, d: Event)
    ensures Run(ar, s, [a, b, c, d]) == Step(ar, Step(ar, Step(ar, Step(ar, s, a), b), c), d)
  {
    var t1 := Step(ar, s, a);
    var t2 := Step(ar, t1, b);
    var t3 := Step(ar, t2, c);
    assert [a, b, c, d] == [a] + [b, c, d];
    assert [b, c, d] == [b] + [c, d];
    assert [c, d] == [c] + [d];
    assert [d] == [d] + [];
    RunCons(ar, s, a, [b, c, d]);
    RunCons(ar, t1, b, [c, d]);
    RunCons(ar, t2, c, [d]);
    RunCons(ar, t3, d, []);
  }

  // -----------------------------------------------------------------------
  // Single keys

  /** Every keypad digit is a key the operator and equals keys accept. */
  lemma DigitTyped(c: char)
    requires '0' <= c <= '9'
    ensures Typed([c])
  {
    assert [c][0] == c;
    assert |[c]| != |ErrorText|;
  }

  /** From the start state, the first key pressed is the whole display. */
  lemma FirstKey(ar: Arithmetic, x: string)
    ensures Step(ar, Initial(), DigitKey(x)) == Initial().(display := x)
  {
  }

  /** An operator on a freshly typed first operand banks it. */
  lemma BankKey(ar: Arithmetic, x: string, op: Op)
    requires Typed(x)
    ensures Step(ar, Initial().(display := x), OperatorKey(op))
         == Initial().(display := x, previousValue := Some(x), operator := Some(op), isWaitingForSecondOperand := true)
  {
  }

  /** A key pressed while an operand is awaited starts that operand. */
  lemma SecondKey(ar: Arithmetic, s: CalculatorState, y: string)
    requires s.isWaitingForSecondOperand && !s.isAIProcessing
    ensures Step(ar, s, DigitKey(y)) == s.(display := y, isWaitingForSecondOperand := false)
  {
  }

  // -----------------------------------------------------------------------
  // Sessions

  /** `x op y =` from the start shows the result of `x op y`, logs exactly
      that calculation and leaves no operation pending; a non-finite result
      shows "Error" instead and logs nothing. */
  lemma TypeCalculation(ar: Arithmetic, x: string, op: Op, y: string)
    requires Typed(x) && Typed(y)
    ensures var r := Run(ar, Initial(), [DigitKey(x), OperatorKey(op), DigitKey(y), EqualKey]);
      match Calculate(ar, x, y, op)
      case Some(v) =>
        r == Initial().(display := v, isWaitingForSecondOperand := true,
                        history := [CalculationEntry(x, op, y, v)])
      case None => r == Initial().(display := ErrorText)
  {
    Run4(ar, Initial(), DigitKey(x), OperatorKey(op), DigitKey(y), EqualKey);
    FirstKey(ar, x);
    BankKey(ar, x, op);
    var s2 := Initial().(display := x, previousValue := Some(x), operator := Some(op), isWaitingForSecondOperand := true);
    SecondKey(ar, s2, y);
  }

  /** `x op1 op2 y =` is `x op2 y =`: the corrected operator is the one
      evaluated, and nothing of the first is logged. */
  lemma TypeCorrectedOperator(ar: Arithmetic, x: string, op1: Op, op2: Op, y: string)
    requires Typed(x)
    ensures Run(ar, Initial(), [DigitKey(x), OperatorKey(op1), OperatorKey(op2), DigitKey(y), EqualKey])
         == Run(ar, Initial(), [DigitKey(x), OperatorKey(op2), DigitKey(y), EqualKey])
  {
    var s1 := Initial().(display := x);
    assert [DigitKey(x), OperatorKey(op1), OperatorKey(op2), DigitKey(y), EqualKey]
        == [DigitKey(x), OperatorKey(op1)] + [OperatorKey(op2), DigitKey(y), EqualKey];
    assert [DigitKey(x), OperatorKey(op2), DigitKey(y), EqualKey]
        == [DigitKey(x)] + [OperatorKey(op2), DigitKey(y), EqualKey];
    RunAppend(ar, Initial(), [DigitKey(x), OperatorKey(op1)], [OperatorKey(op2), DigitKey(y), EqualKey]);
    RunAppend(ar, Initial(), [DigitKey(x)], [OperatorKey(op2), DigitKey(y), EqualKey]);
    Run2(ar, Initial(), DigitKey(x), OperatorKey(op1));
    RunCons(ar, Initial(), DigitKey(x), []);
    FirstKey(ar, x);
    BankKey(ar, x, op1);
    BankKey(ar, x, op2);
    var s2 := s1.(previousValue := Some(x), operator := Some(op1), isWaitingForSecondOperand := true);
    RepeatedOperatorReplaces(ar, s2, op2);
    assert Step(ar, s2, OperatorKey(op2)) == Step(ar, s1, OperatorKey(op2));
  }

  /** The first four keys of a chain: the second operator evaluates
      `x op1 y`, logs it and banks its result `m` for `op2`. */
  lemma ChainFirstOperation(ar: Arithmetic, x: string, op1: Op, y: string, op2: Op, m: Numeral)
    requires Typed(x) && Typed(y) && Calculate(ar, x, y, op1) == Some(m)
    ensures Run(ar, Initial(), [DigitKey(x), OperatorKey(op1), DigitKey(y), OperatorKey(op2)])
         == Initial().(display := m, previousValue := Some(m), operator := Some(op2),
                       isWaitingForSecondOperand := true, history := [CalculationEntry(x, op1, y, m)])
  {
    Run4(ar, Initial(), DigitKey(x), OperatorKey(op1), DigitKey(y), OperatorKey(op2));
    FirstKey(ar, x);
    BankKey(ar, x, op1);
    var s2 := Initial().(display := x, previousValue := Some(x), operator := Some(op1), isWaitingForSecondOperand := true);
    SecondKey(ar, s2, y);
    ChainedOperatorEvaluates(ar, s2.(display := y, isWaitingForSecondOperand := false), op2, m);
  }

  /** `x op1 y op2 z =` evaluates left to right, `(x op1 y) op2 z`, and
      logs both calculations, newest first. */
  lemma TypeChain(ar: Arithmetic, x: string, op1: Op, y: string, op2: Op, z: string, m: Numeral, v: Numeral)
    requires Typed(x) && Typed(y) && Typed(z)
    requires Calculate(ar, x, y, op1) == Some(m) && Calculate(ar, m, z, op2) == Some(v)
    ensures Run(ar, Initial(), [DigitKey(x), OperatorKey(op1), DigitKey(y), OperatorKey(op2), DigitKey(z), EqualKey])
         == Initial().(display := v, isWaitingForSecondOperand := true,
                       history := [CalculationEntry(m, op2, z, v), CalculationEntry(x, op1, y, m)])
  {
    var first := [DigitKey(x), OperatorKey(op1), DigitKey(y), OperatorKey(op2)];
    assert [DigitKey(x), OperatorKey(op1), DigitKey(y), OperatorKey(op2), DigitKey(z), EqualKey]
        == first + [DigitKey(z), EqualKey];
    RunAppend(ar, Initial(), first, [DigitKey(z), EqualKey]);
    ChainFirstOperation(ar, x, op1, y, op2, m);
    var s4 := Initial().(display := m, previousValue := Some(m), operator := Some(op2),
                         isWaitingForSecondOperand := true, history := [CalculationEntry(x, op1, y, m)]);
    Run2(ar, s4, DigitKey(z), EqualKey);
    SecondKey(ar, s4, z);
    EqualEvaluates(ar, s4.(display := z, isWaitingForSecondOperand := false), v);
  }

  /** An operator straight after start, then equals, is not a no-op: "0" is
      banked and, no operand having been typed, the display "0" is the
      right operand too. */
  lemma EqualsRightAfterOperator(ar: Arithmetic, op: Op)
    ensures var r := Run(ar, Initial(), [OperatorKey(op), EqualKey]);
      match Calculate(ar, "0", "0", op)
      case Some(v) =>
        r == Initial().(display := v, isWaitingForSecondOperand := true,
                        history := [CalculationEntry("0", op, "0", v)])
      case None => r == Initial().(display := ErrorText, isWaitingForSecondOperand := true)
  {
    DigitTyped('0');
    Run2(ar, Initial(), OperatorKey(op), EqualKey);
    BankKey(ar, "0", op);
  }

  // -----------------------------------------------------------------------
  // Concrete sessions

  /** The history text of the calculations below. */
  lemma EntryText()
    ensures CalculationEntry("5", Add, "3", "8") == "5 + 3 = 8"
    ensures CalculationEntry("2", Add, "3", "5") == "2 + 3 = 5"
    ensures CalculationEntry("5", Multiply, "4", "20") == "5 * 4 = 20"
  {
  }

  /** 5 + 3 = shows the sum and logs one entry. */
  lemma ScenarioAddition(ar: Arithmetic)
    requires ar.apply("5", "3", Add) == Some("8")
    ensures var r := Run(ar, Initial(), [DigitKey("5"), OperatorKey(Add), DigitKey("3"), EqualKey]);
      && r.display == "8" && r.history == ["5 + 3 = 8"]
      && r.previousValue == None && r.operator == None && r.isWaitingForSecondOperand
  {
    DigitTyped('5');
    DigitTyped('3');
    TypeCalculation(ar, "5", Add, "3");
    EntryText();
  }

  /** 2 + 3 * 4 = evaluates (2 + 3) * 4 and logs both steps, newest first. */
  lemma ScenarioChain(ar: Arithmetic)
    requires ar.apply("2", "3", Add) == Some("5") && ar.apply("5", "4", Multiply) == Some("20")
    ensures var r := Run(ar, Initial(),
        [DigitKey("2"), OperatorKey(Add), DigitKey("3"), OperatorKey(Multiply), DigitKey("4"), EqualKey]);
      r.display == "20" && r.history == ["5 * 4 = 20", "2 + 3 = 5"]
  {
    DigitTyped('2');
    DigitTyped('3');
    DigitTyped('4');
    TypeChain(ar, "2", Add, "3", Multiply, "4",
              ar.apply("2", "3", Add).value, ar.apply("5", "4", Multiply).value);
    EntryText();
  }
}
