# Calculator input state machine, modelled in Dafny

This project models the core of a browser calculator: the `setState`
updaters of `components/Calculator.tsx`. Each updater turns one key press,
button press, history selection or AI-request outcome into a new snapshot.
A snapshot has `display`, `previousValue`, `operator`,
`isWaitingForSecondOperand`, `history`, `lastExplanation` and
`isAIProcessing`.

Files:

- `types.dfy` (module `Types`) holds the operator and the snapshot, following `types.ts`.
- `js_string.dfy` (module `JsString`) holds the JavaScript string built-ins the updaters use. These are `trim`, with ECMAScript's whitespace set, and `split` on one character. Round-trip lemmas connect `Split` with `Join`.
- `calculator.dfy` (module `Calculator`) has every updater as a total function: `Digit`, `Decimal`, `OperatorPress`, `Equal`, `Clear`, `BeginAISolve`, `AISolveSucceeded`, `AISolveFailed` and `LoadFromHistory`. It also has the 5-entry history log (`PushHistory`), the `Event` type, `Step` and `Run`.
- `calculator_properties.dfy` (module `CalculatorProperties`) proves what the updaters promise, one key at a time and over any sequence of events.
- `calculator_sessions.dfy` (module `CalculatorSessions`) runs whole key sequences from the start state. The keys and the operators in those sequences are arbitrary.
- `session.dfy` (module `Session`) has a class with one `state` field. It mirrors the single `useState` cell, and each handler method overwrites the field with its updater's result.

Floating-point arithmetic is abstract. `Arithmetic.apply(left, right, op)`
stands for `parseFloat` on both operands, the IEEE-754 operation, the
`isFinite`/`isNaN` test and `String(Number(r.toFixed(10)))`. `None` means a
non-finite result. A finite result has type `Numeral`: a non-empty string of
digits, `.`, `-`, `+` and `e` with at most one point. That is a sound outline
of what JavaScript's number-to-string conversion produces.
`Arithmetic.parsesToZero(right)` stands for `parseFloat(right) === 0`.
`Calculate` decides that case itself: dividing by zero gives NaN, so `None`.

Where the code and the design description disagree, the model follows the code:

- Pressing an operator right at start and then equals is not a no-op. The operator banks `"0"`. Equals then uses the display `"0"` as the right operand, so it evaluates `0 + 0` (`EqualsRightAfterOperator`).
- The AI success and failure updates do not check `isAIProcessing`. The failure update changes only `display` and `isAIProcessing`, so a pending operator survives it.
- `handleClear` and `loadFromHistory` are not frozen while an AI request is out, and clear does not reset `isAIProcessing`.
- `handleDigit` takes a string. The keypad passes one digit. The keyboard passes `e.key` for any key the unanchored `/[0-9]/` matches. The model accepts any string.
- `loadFromHistory` splits on `=` whenever the entry has one, before it tries `→`. So an AI entry whose prompt contains `=` reloads the text after that `=`, not the answer (`ReloadAIPromptWithEquals`).

## Model

| member | source | states |
|---|---|---|
| `Types.OpSymbol` | types.ts:2 | each operator is written as one of `+ - * /` |
| `JsString.LeadingCount` | components/Calculator.tsx:209 | the count of leading whitespace: everything before it is whitespace, and the character at it is not |
| `JsString.TrailingCount` | components/Calculator.tsx:209 | the count of trailing whitespace: the last that many characters are whitespace, and the one before them is not |
| `JsString.Trim` | components/Calculator.tsx:209 | `trim` returns text with no whitespace at either end, no longer than the input; it is empty exactly when the input is all whitespace |
| `JsString.LeadingCountIs` | components/Calculator.tsx:209 | any whitespace prefix followed by a non-whitespace character or the end has exactly the leading count |
| `JsString.TrailingCountIs` | components/Calculator.tsx:209 | any whitespace suffix preceded by a non-whitespace character or the start has exactly the trailing count |
| `JsString.TrimPadded` | components/Calculator.tsx:209 | trimming trimmed text padded on both sides by whitespace gives that text back |
| `JsString.TrimOfTrimmed` | components/Calculator.tsx:209 | `trim` leaves trimmed text unchanged |
| `JsString.BlankMeansTrimsToEmpty` | components/Calculator.tsx:62 | the blank-display test `display.trim() === ""` holds exactly when the display is all whitespace |
| `JsString.Split` | components/Calculator.tsx:208 | `split` gives one more piece than there are separators, and no piece contains the separator |
| `JsString.JoinSplit` | components/Calculator.tsx:208 | joining the pieces of `split` with the separator gives the original string |
| `JsString.SplitJoin` | components/Calculator.tsx:208 | splitting joined separator-free pieces gives the same pieces back |
| `JsString.SplitFree` | components/Calculator.tsx:208 | a string with no separator splits into itself alone |
| `JsString.LastPieceAfterSeparator` | components/Calculator.tsx:208-209 | the last piece of `split` is the text after the final separator |
| `JsString.LastPieceWithoutSeparator` | components/Calculator.tsx:208-209 | with no separator, the last piece is the whole string |
| `Calculator.Calculate` | components/Calculator.tsx:28-36 | division by an operand that parses to zero is non-finite (NaN) |
| `Calculator.PushHistory` | components/Calculator.tsx:92 | the new entry is at index 0, there are min(old length + 1, 5) entries, and the rest is a prefix of the old history |
| `Calculator.Initial` | components/Calculator.tsx:16-26 | start state: display `"0"`, empty history, no pending operator, not busy, consistent |
| `Calculator.ShowError` | components/Calculator.tsx:84-86 | the error state shows `"Error"` with no operand or operator pending; history and the waiting flag are kept |
| `Calculator.Digit` | components/Calculator.tsx:38-57 | a no-op while an AI request is out; otherwise only the display changes, and the waiting flag is cleared |
| `Calculator.Decimal` | components/Calculator.tsx:151-163 | a no-op while busy or on `"Error"`; changes only display and waiting flag, and never leaves the flag set unless nothing changed |
| `Calculator.OperatorPress` | components/Calculator.tsx:59-106 | a no-op while busy, on `"Error"` or on a blank display; never touches the AI flag or the explanation |
| `Calculator.Equal` | components/Calculator.tsx:108-138 | a no-op while busy, on `"Error"`, on a blank display, or with no pending operation; never touches the AI flag or the explanation |
| `Calculator.Clear` | components/Calculator.tsx:140-149 | gives the start state except that history and the AI flag are kept |
| `Calculator.BeginAISolve` | components/Calculator.tsx:166 | sets the AI flag and nothing else |
| `Calculator.AISolveSucceeded` | components/Calculator.tsx:188-200 | shows the answer, stores the explanation, clears the AI flag, awaits a new operand, logs `"prompt" → result` first, and keeps the pending operation |
| `Calculator.AISolveFailed` | components/Calculator.tsx:201-203 | shows `"Error"`, clears the AI flag, and changes nothing else, including the history |
| `Calculator.HistoryValue` | components/Calculator.tsx:207-209 | the reloaded value is trimmed |
| `Calculator.LoadFromHistory` | components/Calculator.tsx:207-216 | shows the entry's value and sets waiting; operator, previous value and history are unchanged |
| `CalculatorProperties.NumeralFacts` | components/Calculator.tsx:88 | a rendered finite result is never `"Error"`, never blank or padded, and contains neither `=` nor `→` |
| `CalculatorProperties.StepKeepsWellFormed` | components/Calculator.tsx:59-216 | every updater keeps "operator pending exactly when an operand is banked" and at most 5 history entries |
| `CalculatorProperties.RunKeepsWellFormed` | components/Calculator.tsx:59-216 | any sequence of events keeps that invariant |
| `CalculatorProperties.Reachable` | components/Calculator.tsx:16-26 | every state reachable from the start state is well formed |
| `CalculatorProperties.OperatorNeverFallsThrough` | components/Calculator.tsx:71-104 | under the invariant, an unblocked operator press leaves the new operator pending or shows the error state, so `return prev` at line 104 is unreachable |
| `CalculatorProperties.FrozenWhileAIProcessing` | components/Calculator.tsx:38-163 | while an AI request is out, any run of digit, decimal, operator and equals keys leaves the state unchanged |
| `CalculatorProperties.AIFlag` | components/Calculator.tsx:165-205 | only the AI request sets or clears the AI flag |
| `CalculatorProperties.DigitEntry` | components/Calculator.tsx:44-55 | on `"Error"` or while waiting, the digit becomes the whole display; otherwise `"0"` is replaced and any other display is extended; waiting ends cleared |
| `CalculatorProperties.TypingExtends` | components/Calculator.tsx:52-55 | typing digits onto a number being entered appends them |
| `CalculatorProperties.TypingFromZero` | components/Calculator.tsx:52-55 | typing digits onto `"0"` shows them without leading zeros, or `"0"` if all were zeros |
| `CalculatorProperties.TypingStartsFresh` | components/Calculator.tsx:44-55 | after `"Error"`, an operator, an answer or a history selection, typed digits start a new number without leading zeros |
| `CalculatorProperties.DigitKeepsOnePoint` | components/Calculator.tsx:44-55 | a digit key keeps "at most one `.`" on the display |
| `CalculatorProperties.DecimalEntry` | components/Calculator.tsx:155-161 | the decimal key leaves exactly one `.`; while waiting it gives `"0."`; it appends a point only when there is none |
| `CalculatorProperties.DecimalIdempotent` | components/Calculator.tsx:151-163 | pressing the decimal key twice is the same as once |
| `CalculatorProperties.StepKeepsOnePoint` | components/Calculator.tsx:38-163 | every keypad key and the AI start and failure keep "at most one `.`" on the display |
| `CalculatorProperties.OperatorKeepsOnePoint` | components/Calculator.tsx:59-106 | an operator press keeps "at most one `.`" on the display |
| `CalculatorProperties.EqualKeepsOnePoint` | components/Calculator.tsx:108-138 | equals keeps "at most one `.`" on the display |
| `CalculatorProperties.KeypadKeepsOnePoint` | components/Calculator.tsx:38-163 | a session of keypad keys only never shows two decimal points |
| `CalculatorProperties.RepeatedOperatorReplaces` | components/Calculator.tsx:67-69 | an operator pressed while one is pending and still waiting changes only the operator |
| `CalculatorProperties.FirstOperatorBanks` | components/Calculator.tsx:71-78 | the first operator banks the display as left operand, sets the operator and waits; display and history are untouched |
| `CalculatorProperties.ChainedOperatorEvaluates` | components/Calculator.tsx:80-101 | an operator after a second operand shows, logs and banks the result, with the new operator pending |
| `CalculatorProperties.LastOperatorWins` | components/Calculator.tsx:59-106 | from any state, two operator presses in a row act as the second press alone |
| `CalculatorProperties.EqualEvaluates` | components/Calculator.tsx:113-136 | equals with a pending operation shows and logs the result and ends the chain, still waiting |
| `CalculatorProperties.NonFiniteShowsError` | components/Calculator.tsx:80-121 | a non-finite result from equals or a chained operator gives exactly the error state, with history unchanged |
| `CalculatorProperties.DivisionByZeroShowsError` | components/Calculator.tsx:33 | dividing by an operand that parses to zero shows `"Error"` with nothing pending and history unchanged |
| `CalculatorProperties.StepHistory` | components/Calculator.tsx:92 | every updater leaves history as it is or pushes one entry; only operator, equals and AI answers log |
| `CalculatorProperties.ReverseAt` | components/Calculator.tsx:92 | reversal puts the k-th element from the end at index k |
| `CalculatorProperties.LogKeepsNewestFive` | components/Calculator.tsx:92 | logging entries one by one gives the newest first, cut to 5, then what is left of the old history |
| `CalculatorProperties.SixthEntryEvictsOldest` | components/Calculator.tsx:92 | after six entries the first is evicted and the sixth is at index 0 |
| `CalculatorProperties.ReloadAfterLastEquals` | components/Calculator.tsx:208-209 | an entry containing `=` reloads the trimmed text after its last `=` |
| `CalculatorProperties.ReloadTrimmedAfterLastEquals` | components/Calculator.tsx:208-209 | an entry ending in `=` then trimmed `=`-free text reloads exactly that text |
| `CalculatorProperties.ReloadAfterLastArrow` | components/Calculator.tsx:208-209 | an entry without `=` reloads the trimmed text after its last `→` |
| `CalculatorProperties.ReloadWithoutDelimiter` | components/Calculator.tsx:208-209 | an entry with neither delimiter reloads whole, trimmed |
| `CalculatorProperties.CalculationEntryEndsWithResult` | components/Calculator.tsx:89-92 | a calculation entry ends in `=`, a space, and the result |
| `CalculatorProperties.TrimAfterSpace` | components/Calculator.tsx:209 | trimming a space followed by trimmed text gives that text |
| `CalculatorProperties.ReloadCalculation` | components/Calculator.tsx:207-216 | selecting a logged calculation puts its result back on the display |
| `CalculatorProperties.AIEntryEndsWithResult` | components/Calculator.tsx:190 | an AI entry ends in `→`, a space, and the answer |
| `CalculatorProperties.ReloadAIAnswer` | components/Calculator.tsx:207-216 | selecting a logged AI answer puts the answer back, when prompt and answer have no `=` and the answer has no `→` and is trimmed |
| `CalculatorProperties.ReloadAIPromptWithEquals` | components/Calculator.tsx:208 | the AI entry for prompt `x=2` answered `2` reloads `2" → 2`, the text after the prompt's `=` |
| `CalculatorProperties.ReloadCalculationExample` | components/Calculator.tsx:207-216 | `3 + 4 = 7` reloads `7` |
| `CalculatorProperties.ReloadAIExample` | components/Calculator.tsx:207-216 | `"15% of 84" → 12.6` reloads `12.6` |
| `CalculatorSessions.DigitTyped` | components/Calculator.tsx:62 | a keypad digit on the display passes the sentinel and blank guard of the operator and equals keys |
| `CalculatorSessions.RunCons` | components/Calculator.tsx:38-216 | a run handles its first event with that event's updater, then the rest |
| `CalculatorSessions.RunAppend` | components/Calculator.tsx:38-216 | running one sequence of events after another is running their concatenation |
| `CalculatorSessions.Run2` | components/Calculator.tsx:38-216 | two events run as one updater after the other |
| `CalculatorSessions.Run4` | components/Calculator.tsx:38-216 | four events run as one updater after another |
| `CalculatorSessions.FirstKey` | components/Calculator.tsx:52-55 | from the start state, the first key replaces the `"0"` |
| `CalculatorSessions.BankKey` | components/Calculator.tsx:71-78 | an operator on a freshly typed operand banks it and awaits the second operand |
| `CalculatorSessions.SecondKey` | components/Calculator.tsx:44-50 | a key pressed while an operand is awaited replaces the display and ends the wait |
| `CalculatorSessions.TypeCalculation` | components/Calculator.tsx:38-138 | `x op y =` from the start leaves exactly the result on the display, nothing pending and one log entry `x op y = result`; a non-finite result leaves exactly `"Error"` and an empty log |
| `CalculatorSessions.TypeCorrectedOperator` | components/Calculator.tsx:59-138 | `x op1 op2 y =` ends in the same state as `x op2 y =` |
| `CalculatorSessions.ChainFirstOperation` | components/Calculator.tsx:80-101 | in `x op1 y op2`, the second operator evaluates and logs `x op1 y` and leaves `op2` pending on the result |
| `CalculatorSessions.TypeChain` | components/Calculator.tsx:59-138 | `x op1 y op2 z =` evaluates left to right, `(x op1 y) op2 z`, and logs both calculations, newest first |
| `CalculatorSessions.EqualsRightAfterOperator` | components/Calculator.tsx:59-138 | an operator then `=` from the start evaluates `0 op 0`: `"0"` is banked and the unchanged display is the right operand; a non-finite result shows `"Error"` |
| `CalculatorSessions.EntryText` | components/Calculator.tsx:89-92 | the history text of the concrete sessions below |
| `CalculatorSessions.ScenarioAddition` | components/Calculator.tsx:38-138 | typing 5, +, 3, = shows `8` and logs exactly `5 + 3 = 8` |
| `CalculatorSessions.ScenarioChain` | components/Calculator.tsx:59-138 | typing 2, +, 3, *, 4, = shows `20` and logs `5 * 4 = 20` before `2 + 3 = 5` |
| `Session.CalculatorComponent.constructor` | components/Calculator.tsx:11-26 | the cell starts in the initial state |
| `Session.CalculatorComponent.Apply` | components/Calculator.tsx:11-26 | one `setState` replaces the snapshot with the updater's result and keeps the invariant |
| `Session.CalculatorComponent.HandleDigit` | components/Calculator.tsx:38-57 | the new snapshot is `Digit` of the old one |
| `Session.CalculatorComponent.HandleDecimal` | components/Calculator.tsx:151-163 | the new snapshot is `Decimal` of the old one |
| `Session.CalculatorComponent.HandleOperator` | components/Calculator.tsx:59-106 | the new snapshot is `OperatorPress` of the old one |
| `Session.CalculatorComponent.HandleEqual` | components/Calculator.tsx:108-138 | the new snapshot is `Equal` of the old one |
| `Session.CalculatorComponent.HandleClear` | components/Calculator.tsx:140-149 | the new snapshot is `Clear` of the old one |
| `Session.CalculatorComponent.StartAISolve` | components/Calculator.tsx:166 | the first update of `handleAISolve` |
| `Session.CalculatorComponent.FinishAISolve` | components/Calculator.tsx:186-204 | the success update for an answer, the failure update for a failure |
| `Session.CalculatorComponent.LoadFromHistoryEntry` | components/Calculator.tsx:207-216 | the new snapshot is `LoadFromHistory` of the old one |

## Left out

- Calculator.Calculate: IEEE-754 arithmetic, `parseFloat`, `toFixed(10)` rounding and `String(Number(..))` are abstract. The model checks the state-machine logic, not which number is shown. `Numeral` outlines the shape of a rendered finite number but does not pin down its value.
- The unknown-operator default of `performCalculation` (line 34) is not modelled: `Op` is a closed type, so that branch cannot be reached.
- The Gemini request, its prompt and the `JSON.parse` of the reply (lines 169-186) are a network call. Only its outcome is modelled, as `AIOutcome` given to `FinishAISolve`. `console.error` is left out.
- Session.CalculatorComponent.FinishAISolve: the await between the two halves of `handleAISolve` is not modelled as concurrency. `StartAISolve` and `FinishAISolve` are separate calls, and any handler may run between them.
- The keyboard listener (`useEffect`, `window.addEventListener`, lines 218-235) is DOM event wiring. Its key-to-handler mapping is not modelled.
- The modal flags `isAIModalOpen` and `isHistoryOpen` are presentation state: lines 166, 214 and the toggles. So are the JSX layout, `Button.tsx`, `App.tsx`, `HistoryPanel.tsx` (including its label choice at line 40), `AISolver.tsx`'s form handling, and `Display.tsx`'s `toPrecision(8)` formatting.
