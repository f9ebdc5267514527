/** The calculator's value types: the operator and the state snapshot that
    every key press replaces whole. */
module Types {

  /** The source's `| null`. */
  datatype Option<+T> = None | Some(value: T)

  /** The four binary operators the keypad offers; a pending operator that is
      `null` in the source is `None` here. */
  datatype Op = Add | Subtract | Multiply | Divide

  /** The operator as it is typed and as it appears in a history entry. */
  function OpSymbol(op: Op): (c: char)
    ensures c in "+-*/"
  {
    match op
    case Add => '+'
    case Subtract => '-'
    case Multiply => '*'
    case Divide => '/'
  }

  /** One snapshot of the calculator: the fields of `CalculatorState` plus
      the AI flags the component keeps beside them (the two modal flags are
      presentation only and not modelled). `display` is the text shown, or
      the sentinel "Error"; `previousValue` and `operator` are the banked
      left operand and the pending operator; `history` is most recent first. */
  datatype CalculatorState = CalculatorState(
    display: string,
    previousValue: Option<string>,
    operator: Option<Op>,
    isWaitingForSecondOperand: bool,
    history: seq<string>,
    lastExplanation: Option<string>,
    isAIProcessing: bool)
}
