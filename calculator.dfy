/** The calculator's input state machine: every `setState` updater of the
    component as a total function from the current snapshot to the next one.
    Floating-point arithmetic stays abstract (see `Arithmetic`). */
module Calculator {
  import opened Types
  import opened JsString

  /** The display sentinel shown after a non-finite result or a failed AI
      request. */
  const ErrorText: string := "Error"

  /** How many history entries are kept (`slice(0, 5)`). */
  const MaxHistory: nat := 5

  /** The delimiter of an AI history entry (U+2192, one UTF-16 code unit). */
  const Arrow: char := '\U{2192}'

  function DotCount(s: string): nat {
    multiset(s)['.']
  }

  /** The shape of `String(Number(x.toFixed(10)))` for a finite number `x`:
      a non-empty numeral made of digits, sign, exponent marker and at most
      one decimal point. */
  predicate IsNumeral(s: string) {
    && |s| > 0
    && (forall i :: 0 <= i < |s| ==> IsNumeralChar(s[i]))
    && DotCount(s) <= 1
  }

  predicate IsNumeralChar(c: char) {
    ('0' <= c <= '9') || c == '.' || c == '-' || c == '+' || c == 'e'
  }

  type Numeral = s: string | IsNumeral(s) witness "0"

  /** The floating-point side of the calculator, kept abstract.
      `apply(left, right, op)` stands for parsing both operands with
      `parseFloat`, applying the IEEE-754 operation, testing the result with
      `isFinite`/`isNaN` and rendering it with `String(Number(r.toFixed(10)))`:
      `None` is a non-finite result. `parsesToZero(right)` stands for
      `parseFloat(right) === 0`, the one case `performCalculation` decides
      itself. */
  datatype Arithmetic = Arithmetic(
    apply: (string, string, Op) -> Option<Numeral>,
    parsesToZero: string -> bool)

  /** `performCalculation` with the finiteness test and the rendering of its
      callers. Dividing by an operand that parses to zero yields NaN, which is
      non-finite, so `None`. */
  function Calculate(ar: Arithmetic, left: string, right: string, op: Op): (r: Option<Numeral>)
    ensures op == Divide && ar.parsesToZero(right) ==> r == None
  {
    if op == Divide && ar.parsesToZero(right) then None else ar.apply(left, right, op)
  }

  function Min(a: nat, b: nat): nat {
    if a <= b then a else b
  }

  /** `[entry, ...history].slice(0, 5)`: the new entry goes first, the rest
      is the old history cut so that at most five entries remain. */
  function PushHistory(history: seq<string>, entry: string): (r: seq<string>)
    ensures |r| == Min(|history| + 1, MaxHistory)
    ensures r[0] == entry
    ensures r[1..] == history[..|r| - 1]
  {
    ([entry] + history)[..Min(|history| + 1, MaxHistory)]
  }

  /** The history text of a calculation: `${previous} ${op} ${display} = ${result}`. */
  function CalculationEntry(left: string, op: Op, right: string, result: string): string {
    left + " " + [OpSymbol(op)] + " " + right + " = " + result
  }

  /** The history text of an AI answer: `"${prompt}" → ${result}`. */
  function AIEntry(prompt: string, result: string): string {
    "\"" + prompt + "\" " + [Arrow] + " " + result
  }

  /** The state the component starts with. */
  function Initial(): (r: CalculatorState)
    ensures r.display == "0" && r.history == [] && !r.isAIProcessing
    ensures Consistent(r) && r.operator == None
  {
    CalculatorState("0", None, None, false, [], None, false)
  }

  /** The invariant the handlers keep: an operator is pending exactly when a
      left operand is banked. */
  predicate Consistent(s: CalculatorState) {
    s.operator.None? <==> s.previousValue.None?
  }

  /** Every reachable snapshot: consistent, and at most five history entries. */
  predicate WellFormed(s: CalculatorState) {
    Consistent(s) && |s.history| <= MaxHistory
  }

  /** The error state a non-finite result leads to: the sentinel on the
      display and no pending operation; all else as it was. */
  function ShowError(s: CalculatorState): (r: CalculatorState)
    ensures r.display == ErrorText && r.previousValue == None && r.operator == None
    ensures r.history == s.history && r.isWaitingForSecondOperand == s.isWaitingForSecondOperand
  {
    s.(display := ErrorText, previousValue := None, operator := None)
  }

  // -----------------------------------------------------------------------
  // The updaters

  /** `handleDigit`: ignored while an AI request is out; on "Error" or when a
      second operand is awaited it starts a new number; otherwise it
      replaces a lone "0" and extends anything else. Only the display and the
      waiting flag can change, and the flag ends up cleared. */
  function Digit(s: CalculatorState, digit: string): (r: CalculatorState)
    ensures s.isAIProcessing ==> r == s
    ensures !s.isAIProcessing ==> r == s.(display := r.display, isWaitingForSecondOperand := false)
  {
    if s.isAIProcessing then s
    else if s.display == ErrorText || s.isWaitingForSecondOperand then
      s.(display := digit, isWaitingForSecondOperand := false)
    else
      s.(display := if s.display == "0" then digit else s.display + digit)
  }

  /** `handleDecimal`: ignored while an AI request is out or on "Error";
      when a second operand is awaited it starts "0."; otherwise it appends a
      point unless the display already has one. */
  function Decimal(s: CalculatorState): (r: CalculatorState)
    ensures s.isAIProcessing || s.display == ErrorText ==> r == s
    ensures r == s.(display := r.display, isWaitingForSecondOperand := r.isWaitingForSecondOperand)
    ensures r.isWaitingForSecondOperand ==> r == s
  {
    if s.isAIProcessing || s.display == ErrorText then s
    else if s.isWaitingForSecondOperand then s.(display := "0.", isWaitingForSecondOperand := false)
    else if '.' !in s.display then s.(display := s.display + ".")
    else s
  }

  /** True when the operator and equals keys are ignored: an AI request is
      out, the display shows "Error", or it is blank. */
  predicate Blocked(s: CalculatorState) {
    s.isAIProcessing || s.display == ErrorText || IsBlank(s.display)
  }

  /** `handleOperator`. A second operator before any operand replaces the
      pending one; the first operator banks the display; an operator after a
      second operand evaluates the pending operation, logs it and keeps the
      chain going with the new operator. The last branch (`return prev`) is
      reached only by a banked operand without an operator. */
  function OperatorPress(ar: Arithmetic, s: CalculatorState, next: Op): (r: CalculatorState)
    ensures Blocked(s) ==> r == s
    ensures r.isAIProcessing == s.isAIProcessing && r.lastExplanation == s.lastExplanation
  {
    if Blocked(s) then s
    else if s.operator.Some? && s.isWaitingForSecondOperand then
      s.(operator := Some(next))
    else if s.previousValue.None? then
      s.(previousValue := Some(s.display), operator := Some(next), isWaitingForSecondOperand := true)
    else if s.operator.Some? then
      var left, op := s.previousValue.value, s.operator.value;
      match Calculate(ar, left, s.display, op)
      case None => ShowError(s)
      case Some(result) =>
        s.(display := result, previousValue := Some(result), operator := Some(next),
           isWaitingForSecondOperand := true,
           history := PushHistory(s.history, CalculationEntry(left, op, s.display, result)))
    else
      s
  }

  /** `handleEqual`: ignored when blocked or when no operation is pending;
      otherwise it evaluates the pending operation, logs it, shows the result
      and ends the chain. */
  function Equal(ar: Arithmetic, s: CalculatorState): (r: CalculatorState)
    ensures Blocked(s) || s.operator.None? || s.previousValue.None? ==> r == s
    ensures r.isAIProcessing == s.isAIProcessing && r.lastExplanation == s.lastExplanation
  {
    if Blocked(s) then s
    else if s.operator.None? || s.previousValue.None? then s
    else
      var left, op := s.previousValue.value, s.operator.value;
      match Calculate(ar, left, s.display, op)
      case None => ShowError(s)
      case Some(result) =>
        s.(display := result, previousValue := None, operator := None,
           isWaitingForSecondOperand := true,
           history := PushHistory(s.history, CalculationEntry(left, op, s.display, result)))
  }

  /** `handleClear`: always the start state again, except that the history
      and the AI flag are kept. */
  function Clear(s: CalculatorState): (r: CalculatorState)
    ensures r == Initial().(history := s.history, isAIProcessing := s.isAIProcessing)
  {
    s.(display := "0", previousValue := None, operator := None,
       isWaitingForSecondOperand := false, lastExplanation := None)
  }

  /** The first update of `handleAISolve`: the request is out. */
  function BeginAISolve(s: CalculatorState): (r: CalculatorState)
    ensures r.isAIProcessing && r.(isAIProcessing := s.isAIProcessing) == s
  {
    s.(isAIProcessing := true)
  }

  /** The update after the AI answered `result` with `explanation` for
      `prompt`: the answer is shown and logged, the next digit starts a new
      number, and the request is over. */
  function AISolveSucceeded(s: CalculatorState, prompt: string, result: string, explanation: string): (r: CalculatorState)
    ensures r.display == result && r.lastExplanation == Some(explanation)
    ensures !r.isAIProcessing && r.isWaitingForSecondOperand
    ensures r.history == PushHistory(s.history, AIEntry(prompt, result))
    ensures r.previousValue == s.previousValue && r.operator == s.operator
  {
    s.(display := result, lastExplanation := Some(explanation), isAIProcessing := false,
       isWaitingForSecondOperand := true, history := PushHistory(s.history, AIEntry(prompt, result)))
  }

  /** The update after the AI request failed: "Error" is shown, the request
      is over, and nothing else changes (the pending operation included). */
  function AISolveFailed(s: CalculatorState): (r: CalculatorState)
    ensures r.display == ErrorText && !r.isAIProcessing
    ensures r.(display := s.display, isAIProcessing := s.isAIProcessing) == s
  {
    s.(display := ErrorText, isAIProcessing := false)
  }

  /** The text `loadFromHistory` puts on the display: split on '=' when the
      entry holds one, else on '→', and trim the last piece. */
  function HistoryValue(entry: string): (v: string)
    ensures Trimmed(v)
  {
    var sep := if '=' in entry then '=' else Arrow;
    Trim(LastPiece(entry, sep))
  }

  /** `loadFromHistory`: shows the selected entry's value and awaits a new
      operand; the pending operation is not restored or changed. */
  function LoadFromHistory(s: CalculatorState, entry: string): (r: CalculatorState)
    ensures r == s.(display := r.display, isWaitingForSecondOperand := true)
    ensures r.display == HistoryValue(entry)
  {
    s.(display := HistoryValue(entry), isWaitingForSecondOperand := true)
  }

  // -----------------------------------------------------------------------
  // Input events

  /** One input the component reacts to: a key or button, or the resolution
      of an AI request (already resolved: the network call is not modelled). */
  datatype Event =
    | DigitKey(digit: string)
    | DecimalKey
    | OperatorKey(op: Op)
    | EqualKey
    | ClearKey
    | AIRequestSent
    | AIAnswered(prompt: string, result: string, explanation: string)
    | AIRequestFailed
    | HistorySelected(entry: string)

  /** The keys that do arithmetic, which an outstanding AI request freezes. */
  predicate IsArithmetic(e: Event) {
    e.DigitKey? || e.DecimalKey? || e.OperatorKey? || e.EqualKey?
  }

  /** The updater each event runs. */
  function Step(ar: Arithmetic, s: CalculatorState, e: Event): CalculatorState {
    match e
    case DigitKey(d) => Digit(s, d)
    case DecimalKey => Decimal(s)
    case OperatorKey(op) => OperatorPress(ar, s, op)
    case EqualKey => Equal(ar, s)
    case ClearKey => Clear(s)
    case AIRequestSent => BeginAISolve(s)
    case AIAnswered(p, res, expl) => AISolveSucceeded(s, p, res, expl)
    case AIRequestFailed => AISolveFailed(s)
    case HistorySelected(entry) => LoadFromHistory(s, entry)
  }

  /** The events processed one at a time, in order. */
  function Run(ar: Arithmetic, s: CalculatorState, events: seq<Event>): CalculatorState
    decreases |events|
  {
    if events == [] then s else Run(ar, Step(ar, s, events[0]), events[1..])
  }
}
