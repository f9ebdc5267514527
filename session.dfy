/** The component's one `useState` cell. Each handler hands an updater to
    `setState`, which replaces the whole snapshot with the updater's result;
    the class keeps that snapshot in a field and every method overwrites it
    with the matching function of module Calculator. */
module Session {
  import opened Types
  import opened Calculator
  import CalculatorProperties

  /** How an AI request ended, as the component sees it after the network
      call: an answer parsed from the reply, or a failure (network or parse
      error). */
  datatype AIOutcome = Answer(result: string, explanation: string) | Failure

  class CalculatorComponent {
    var state: CalculatorState
    const arithmetic: Arithmetic

    ghost predicate Valid()
      reads this
    {
      WellFormed(state)
    }

    /** The initial `useState` value. */
    constructor (ar: Arithmetic)
      ensures state == Initial() && arithmetic == ar && Valid()
    {
      state := Initial();
      arithmetic := ar;
    }

    method Apply(e: Event)
      requires Valid()
      modifies this
      ensures state == Step(arithmetic, old(state), e) && Valid()
    {
      CalculatorProperties.StepKeepsWellFormed(arithmetic, state, e);
      state := Step(arithmetic, state, e);
    }

    method HandleDigit(digit: string)
      requires Valid()
      modifies this
      ensures state == Digit(old(state), digit) && Valid()
    {
      Apply(DigitKey(digit));
    }

    method HandleDecimal()
      requires Valid()
      modifies this
      ensures state == Decimal(old(state)) && Valid()
    {
      Apply(DecimalKey);
    }

    method HandleOperator(next: Op)
      requires Valid()
      modifies this
      ensures state == OperatorPress(arithmetic, old(state), next) && Valid()
    {
      Apply(OperatorKey(next));
    }

    method HandleEqual()
      requires Valid()
      modifies this
      ensures state == Equal(arithmetic, old(state)) && Valid()
    {
      Apply(EqualKey);
    }

    method HandleClear()
      requires Valid()
      modifies this
      ensures state == Clear(old(state)) && Valid()
    {
      Apply(ClearKey);
    }

    /** The part of `handleAISolve` before the request is sent. */
    method StartAISolve()
      requires Valid()
      modifies this
      ensures state == BeginAISolve(old(state)) && Valid()
    {
      Apply(AIRequestSent);
    }

    /** The part of `handleAISolve` after the request for `prompt` ended;
        other handlers may have run in between. */
    method FinishAISolve(prompt: string, outcome: AIOutcome)
      requires Valid()
      modifies this
      ensures outcome.Answer? ==>
        state == AISolveSucceeded(old(state), prompt, outcome.result, outcome.explanation)
      ensures outcome.Failure? ==> state == AISolveFailed(old(state))
      ensures Valid()
    {
      match outcome
      case Answer(result, explanation) => Apply(AIAnswered(prompt, result, explanation));
      case Failure => Apply(AIRequestFailed);
    }

    method LoadFromHistoryEntry(entry: string)
      requires Valid()
      modifies this
      ensures state == LoadFromHistory(old(state), entry) && Valid()
    {
      state := LoadFromHistory(state, entry);
    }
  }
}
