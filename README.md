# Calculator state engine

A Dafny model of the calculator engine of a React Native calculator app
(`App.js`). The engine is the set of state cells the `App` component keeps:
`display`, `expression`, `previousValue`, `operation`, `waitingForOperand`,
`history`, `memory`, the mode and the converter's category and units. The
handlers update those cells when a button is pressed:

- digit and decimal-point entry;
- binary operators evaluated strictly left to right, with one pending operator;
- "=";
- the scientific functions;
- backspace, clear and clear-all;
- the single memory register;
- recalling a history entry;
- the mode selector and header toggle;
- the unit converter.

Files and modules:

- `numbers.dfy` (`Numbers`): JavaScript numbers as `Finite(real) | NaN | PosInf | NegInf`.
  It defines `+ - * / %` over them, `|| 0`, and `formatNumber`.
  The host functions the engine calls but the model does not define are fields of a `Host` value:
  - `parseFloat`;
  - the rendering of a finite number (`toString`, `toExponential(6)`, `toPrecision(10)`);
  - `Math.pow`, and `Math.sin`/`cos`/`tan`/`log`/`log10`/`sqrt`.
- `arithmetic.dfy` (`Arithmetic`): the binary table `calculate`, the scientific
  table of `performScientific`, and `factorial`. The factorial is an iterative
  method proved equal to a recursive definition of n!.
- `conversion.dfy` (`Conversion`): the factor tables, ratio conversion and the
  temperature formulas.
- `history.dfy` (`History`): the bounded front-inserting history log, and
  `split(' = ')[1]`.
- `engine.dfy` (`Engine`): the state cells as a `State` value. Each handler is a
  step function whose contract states the transition and what it keeps unchanged.
  Each step also preserves the engine invariant:
  - at most 20 history entries;
  - a left operand is stored exactly when an operator is.
- `engine_properties.dfy` (`EngineProperties`): properties that relate several
  handler calls.
- `calculator.dfy` (`Calculator`): the component as a class whose fields are
  the state cells. Its methods update those fields in place. Each method is
  proved to take exactly the `Engine` step and to keep the invariant (methods
  that do not require `Valid()` keep it whenever it held before).

The model follows the code where it is quirky:

- A second operator pressed straight after a first one does not just replace
  the pending operator. `performOperation` never reads `waitingForOperand`, so
  it applies the pending operator again, to the stored result and the displayed
  value (`OperatorTwice`).
- Recalling a history entry takes the segment after the first `" = "` and
  before the second (`split(' = ')[1]`), not the text after the last one.
- Recalling an entry keeps `waitingForOperand` as it was. A following digit
  extends the recalled value only when the flag was false; after "=", an
  operator, a function or memory recall it replaces the recalled value.
- Only the mode selector clears the entry. The header toggle between Basic and
  Scientific clears nothing.
- An operator symbol the table does not know is not an error: `calculate`
  returns the second operand.
- `previousValue || 0` turns a stored NaN (or 0) into 0 when operators are
  chained. "=" uses the stored value as it is.
- Choosing a converter category keeps the previous units. If the new category
  is length or weight and a unit is missing from its table, the lookup in
  `convertUnits` raises a TypeError. The model reports that case as
  `ok == false` and does not update the converted value
  (`StaleUnitsAfterCategoryChange`). For temperature no lookup happens, and
  an unknown pair of units converts as the identity.

## Model

| member | source | states |
|---|---|---|
| Numbers.OrZero | App.js:180 | the fallback to 0: a truthy number is kept; NaN and 0 become 0 |
| Numbers.Add | App.js:198 | finite operands add as reals; NaN propagates |
| Numbers.Sub | App.js:199 | finite operands subtract as reals; NaN propagates |
| Numbers.Mul | App.js:200 | finite operands multiply as reals; NaN propagates |
| Numbers.Div | App.js:201 | finite operands with non-zero divisor divide as reals; dividing by 0 never gives a finite value |
| Numbers.Trunc | App.js:202 | rounding toward zero lands within one of the quotient, on the side of zero |
| Numbers.Rem | App.js:202 | `%` is NaN for NaN, an infinite dividend or a zero divisor, and the dividend for an infinite divisor |
| Numbers.RemBounds | App.js:202 | the finite remainder differs from the dividend by a whole multiple of the divisor, has the dividend's sign and is smaller in magnitude than the divisor |
| Numbers.FormatNumber | App.js:316-328 | NaN formats as "Error", either infinity as "∞", a finite value as the host renders it |
| Arithmetic.Calculate | App.js:196-205 | + - × are real arithmetic; ÷ by 0 gives 0, otherwise the quotient; % and ^ are remainder and power; an unknown symbol gives the second operand |
| Arithmetic.ProductFromTwo | App.js:297-300 | the product 2·3·…·n equals n! for every natural n |
| Arithmetic.FactorialOf | App.js:294-302 | NaN exactly for a negative, non-integral or NaN argument; n! for every natural n |
| Arithmetic.Factorial | App.js:294-302 | the iterative product loop returns FactorialOf of its argument |
| Arithmetic.FactorialExamples | App.js:294-302 | factorial(5) is 120; factorial(-1) and factorial(2.5) are NaN |
| Arithmetic.Unary | App.js:231-244 | trigonometry of degrees; ln, log and √ by the host; x² squares; 1/x of 0 is 0; ! is the factorial; π and e ignore the input; an unknown name returns the input |
| Conversion.Units | App.js:38-72 | every category of the table has at least one unit |
| Conversion.Factor | App.js:38-72 | a factor exists exactly for the length and weight units of the table, and is positive |
| Conversion.Ratio | App.js:268 | the result times the source factor equals the value times the target factor; with positive factors the sign of the value is kept |
| Conversion.ConvertRatio | App.js:264-270 | defined exactly when both units are in the category; the result times the source unit's factor equals the value times the target unit's factor; the same unit on both sides is the identity |
| Conversion.RatioRoundTrip | App.js:268 | dividing by one factor and multiplying by another, then back, returns the input |
| Conversion.ConvertRatioSwap | App.js:264-270 | converting with the units swapped undoes a conversion |
| Conversion.MeterToFeet | App.js:43-47 | 1 m is 3.28084 ft, and 3.28084 ft is 1 m |
| Conversion.ConvertTemperature | App.js:274-292 | six formulas for the distinct pairs among c, f, k; any other pair, and the same unit twice, give the input |
| Conversion.TemperatureThroughCelsius | App.js:274-292 | every formula agrees with converting through Celsius |
| Conversion.TemperatureExamples | App.js:276-281 | 0 °C is 32 °F, 100 °C is 373.15 K |
| Conversion.TemperatureRoundTrip | App.js:274-292 | converting there and back is the identity for every pair of unit ids |
| Conversion.TemperatureCompose | App.js:274-292 | two conversions in a row equal the direct one, among c, f, k |
| History.Push | App.js:187 | the new entry is first, the rest is a prefix of the old log, and the log never exceeds 20 |
| History.PushAllKeepsMostRecent | App.js:187 | after any run of pushes the log is the 20 most recent entries, newest first |
| History.TwentyFiveOperations | App.js:187 | 25 pushes on an empty log leave exactly the last 20, newest first |
| History.FindSeparator | App.js:660 | finds the first " = " at or after a position, or reports that there is none |
| History.SecondSegment | App.js:660 | `split(' = ')[1]`: absent exactly when the entry has no separator; otherwise the text from the end of the first separator up to the next separator or the end of the entry, with no separator inside it |
| History.RecallEntry | App.js:660 | an entry `lhs = result` with no '=' in either side yields exactly `result` |
| History.TwoSeparators | App.js:660 | with two separators the segment stops at the second: "a = b = c" recalls "b", not "c" |
| Engine.ConvertValue | App.js:260-271 | defined exactly for temperature or when both units are in the category's table; for length and weight the result times the source factor equals the value times the target factor; the same unit twice is the identity; converting the result back with the units exchanged gives the value again |
| Engine.ConvertDigit | App.js:256-272 | the display becomes the digit; the converted value is refreshed, or kept where the unit lookup fails |
| Engine.Pending | App.js:211 | under the invariant an operation is pending exactly when a non-empty operator is stored; a pending operation has a stored operand |
| Engine.InputNumber | App.js:127-143 | converter mode takes the ConvertDigit step; otherwise after an operator the digit starts the operand, "0" is replaced, any other display is extended, the flag is cleared and every other cell is kept |
| Engine.InputDecimal | App.js:145-155 | after an operator the display becomes "0."; a display with a '.' is left as it is; never a second '.' |
| Engine.Clear | App.js:157-164 | display "0", no pending operation, flag false; history, memory and converter unchanged |
| Engine.ClearAll | App.js:166-171 | Clear, plus an empty history and a zero memory |
| Engine.BinaryEntry | App.js:186 | the entry `a op b = r` (written alike by "=" at App.js:215) has a separator, and when no part holds an '=' its second segment is exactly the formatted result |
| Engine.FormattedHasNoEquals | App.js:316-328 | no formatted number contains '=' when the host's renderings do not |
| Engine.PerformOperation | App.js:173-194 | the whole new state in each case: stores the operand with expression `display op`, or completes the pending operation, displays and logs it with expression `result op`, or only replaces an empty operator; always stores the operator and sets the flag; converter cells kept |
| Engine.PerformEquals | App.js:208-225 | changes nothing unless an operation is pending; then displays and logs its result, drops the pending state, sets the flag and keeps every other cell |
| Engine.FunctionEntry | App.js:247 | the entry `func(x) = r` has a separator, and when no part holds an '=' its second segment is exactly the formatted result |
| Engine.PerformScientific | App.js:227-254 | displays and logs the function's result and sets the flag; every other cell, the pending operation included, is kept |
| Engine.Backspace | App.js:304-314 | drops exactly the last character of a display longer than one, otherwise shows "0"; never empty |
| Engine.MemoryClear | App.js:331-334 | memory becomes 0, nothing else changes |
| Engine.MemoryRecall | App.js:336-341 | the formatted memory becomes the display and the flag is set; memory and history unchanged |
| Engine.MemoryAdd | App.js:343-347 | memory grows by the displayed value; nothing else changes |
| Engine.MemorySubtract | App.js:349-353 | memory shrinks by the displayed value; nothing else changes |
| Engine.MemoryStore | App.js:355-359 | memory becomes the displayed value; nothing else changes |
| Engine.RecallHistory | App.js:659-666 | when the entry's second segment is present, non-empty and not "Error", display and expression both become it and nothing else changes; otherwise nothing changes |
| Engine.ClearHistory | App.js:650 | empties the history only |
| Engine.SelectMode | App.js:444-448 | sets the mode and clears the entry |
| Engine.ToggleMode | App.js:579 | flips Basic and Scientific (any other mode goes to Basic) and changes nothing else |
| Engine.SelectCategory | App.js:481 | sets the category only, keeping the units |
| Engine.SelectFromUnit | App.js:504 | sets the source unit only |
| Engine.SelectToUnit | App.js:531 | sets the target unit only |
| Engine.SwapUnits | App.js:516-519 | exchanges the two units and recomputes nothing |
| EngineProperties.InitialIsValid | App.js:75-88 | the initial cells (display "0", empty expression and history, zero memory, Basic mode, length from m to ft, converted "0") satisfy the invariant with nothing pending |
| EngineProperties.EqualsTwice | App.js:208-225 | a second "=" in a row changes nothing |
| EngineProperties.OperationIgnoresWaiting | App.js:173-194 | performOperation gives the same result whatever waitingForOperand was |
| EngineProperties.OperatorTwice | App.js:176-189 | a second operator press applies the first operator again to the stored result and the display, and logs it |
| EngineProperties.RecallAfterEquals | App.js:659-666 | the entry "=" just logged has the displayed result as its segment; tapping it loads that result unless it is "Error" |
| EngineProperties.RecallAfterFunction | App.js:246-251 | the entry a scientific function just logged has the displayed result as its segment, so tapping it changes nothing |
| EngineProperties.ChainedOperations | App.js:173-225 | 7 + 3 + 2 = displays 12 and logs "7 + 3 = 10" then "10 + 2 = 12" |
| EngineProperties.SwapInvertsConversion | App.js:516-519 | after a swap, converting the converted value returns the original |
| EngineProperties.StaleUnitsAfterCategoryChange | App.js:264-268 | switching from length to weight keeps "m"/"ft", the lookup fails and the converted value stays |
| EngineProperties.ModeSwitchKeepsMemoryAndHistory | App.js:444-448 | the mode selector keeps memory and history and resets the entry |
| EngineProperties.MemoryKeepsHistory | App.js:331-359 | no memory handler touches the history |
| Calculator.Calculator.constructor | App.js:75-88 | the cells start at their initial values |
| Calculator.Calculator.ConvertDigit | App.js:256-272 | takes the ConvertDigit step; `ok` is false where the source raises a TypeError |
| Calculator.Calculator.InputNumber | App.js:127-143 | updates the cells as InputNumber and keeps the invariant |
| Calculator.Calculator.InputDecimal | App.js:145-155 | updates the cells as InputDecimal |
| Calculator.Calculator.Clear | App.js:157-164 | updates the cells as Clear; history and memory unchanged |
| Calculator.Calculator.ClearAll | App.js:166-171 | updates the cells as ClearAll |
| Calculator.Calculator.PerformOperation | App.js:173-194 | updates the cells as PerformOperation; the operator is stored and the flag set |
| Calculator.Calculator.PerformEquals | App.js:208-225 | updates the cells as PerformEquals |
| Calculator.Calculator.PerformScientific | App.js:227-254 | updates the cells as PerformScientific, computing the factorial by its loop |
| Calculator.Calculator.Backspace | App.js:304-314 | updates the cells as Backspace; the display is never empty |
| Calculator.Calculator.MemoryClear | App.js:331-334 | updates the cells as MemoryClear |
| Calculator.Calculator.MemoryRecall | App.js:336-341 | updates the cells as MemoryRecall |
| Calculator.Calculator.MemoryAdd | App.js:343-347 | updates the cells as MemoryAdd |
| Calculator.Calculator.MemorySubtract | App.js:349-353 | updates the cells as MemorySubtract |
| Calculator.Calculator.MemoryStore | App.js:355-359 | updates the cells as MemoryStore |
| Calculator.Calculator.RecallHistory | App.js:659-666 | updates the cells as RecallHistory |
| Calculator.Calculator.ClearHistory | App.js:650 | updates the cells as ClearHistory |
| Calculator.Calculator.SelectMode | App.js:444-448 | updates the cells as SelectMode |
| Calculator.Calculator.ToggleMode | App.js:579 | updates the cells as ToggleMode |
| Calculator.Calculator.SelectCategory | App.js:481 | updates the cells as SelectCategory |
| Calculator.Calculator.SelectFromUnit | App.js:504 | updates the cells as SelectFromUnit |
| Calculator.Calculator.SelectToUnit | App.js:531 | updates the cells as SelectToUnit |
| Calculator.Calculator.SwapUnits | App.js:516-519 | updates the cells as SwapUnits |

## Left out

- Rendering, layout, animation, haptic feedback (`Vibration.vibrate`), the
  modal and history-panel visibility flags (`showHistory`, `showModeSelector`)
  and the `StyleSheet`: presentation only.
- Numbers.Add: exact reals; rounding to doubles, overflow to ±Infinity and the sign of zero are not modelled.
- Numbers.Sub: exact reals, as for Add.
- Numbers.Mul: exact reals, as for Add.
- Numbers.Div: exact reals, as for Add; zero has no sign, so `x / 0` takes the sign of `x`.
- Numbers.FormatNumber: only the "Error" and "∞" branches are modelled. The
  rendering of finite numbers (`toString`, the 12-character limit,
  `toExponential(6)`, `toPrecision(10)`) is host behaviour, supplied as
  `Host.render`.
- `parseFloat`, `Math.pow`, `Math.sin`/`cos`/`tan`/`log`/`log10`/`sqrt`: host
  library behaviour, supplied as fields of `Host`. `Math.PI` and `Math.E` are
  written as real constants.
- Arithmetic.Factorial: an argument of +Infinity is excluded, because the
  source's loop never ends on it. The loop also never ends for an integral
  argument of 2^53 or more, because `i++` stops changing `i` at 2^53 in
  doubles; the model's counter is exact, so there it returns the product
  instead of hanging. The product is exact, and 171! and beyond do not
  overflow to Infinity as they would in doubles.
- Engine.ConvertDigit: only the one call the app makes, with a one-digit string,
  is modelled. The raised TypeError is reported as `ok == false`; its effect on
  the running app (an error screen) is not modelled.
- The area, volume and time categories have no table entry. The category
  buttons skip them, so they are never selected.
- String lengths count Unicode characters, not UTF-16 code units. They differ
  only for characters outside the Basic Multilingual Plane, which the engine
  never writes.
- The Programmer mode: the engine gives it no behaviour of its own.
