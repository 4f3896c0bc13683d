/**
 * The calculator's state cells and every handler as a step from one state to
 * the next.  The class in module Calculator updates the same cells in place
 * and is proved to take exactly these steps.
 */
module Engine {
  import opened Numbers
  import opened Arithmetic
  import opened Conversion
  import opened History

  datatype Mode = Basic | Scientific | Converter | Programmer

  datatype State = State(
    display: string,
    expression: string,
    previousValue: Option<Num>,
    operation: Option<string>,
    waitingForOperand: bool,
    history: seq<string>,
    memory: Num,
    mode: Mode,
    converterType: Category,
    fromUnit: string,
    toUnit: string,
    convertedValue: string)

  /** The state the component starts with. */
  const Initial: State :=
    State("0", "", None, None, false, [], Finite(0.0), Basic, Length, "m", "ft", "0")

  /**
   * What every handler keeps: the log holds at most twenty entries, and a
   * left operand is stored exactly when an operator is.
   */
  predicate Inv(s: State) {
    |s.history| <= Capacity && (s.previousValue.Some? <==> s.operation.Some?)
  }

  /**
   * `previousValue !== null && operation`: an operation is pending.  Under
   * the invariant the stored operator alone decides it.
   */
  predicate Pending(s: State): (b: bool)
    ensures Inv(s) ==> (b <==> s.operation.Some? && s.operation.value != "")
    ensures b ==> s.previousValue.Some?
  {
    s.previousValue.Some? && s.operation.Some? && s.operation.value != ""
  }

  predicate AtMostOneDot(d: string) {
    multiset(d)['.'] <= 1
  }

  function DigitChar(d: int): char
    requires 0 <= d <= 9
  {
    "0123456789"[d]
  }

  /**
   * The converter's result for `value`; None where the source raises a
   * TypeError.  Converting the result back with the units exchanged gives
   * the value again.
   */
  function ConvertValue(c: Category, from: string, to: string, value: real): (r: Option<real>)
    ensures r.Some? <==> c == Temperature || (from in Units(c) && to in Units(c))
    ensures r.Some? && from == to ==> r.value == value
    ensures r.Some? && c != Temperature ==>
              r.value * Factor(c, from).value == value * Factor(c, to).value
    ensures r.Some? && c == Temperature ==> ConvertTemperature(r.value, to, from) == value
    ensures r.Some? && c != Temperature ==> ConvertRatio(c, to, from, r.value) == Some(value)
  {
    if c == Temperature then
      TemperatureRoundTrip(value, from, to);
      Some(ConvertTemperature(value, from, to))
    else if from in Units(c) && to in Units(c) then
      ConvertRatioSwap(c, from, to, value);
      ConvertRatio(c, from, to, value)
    else ConvertRatio(c, from, to, value)
  }

  /** `convertUnits(String(d))`, the converter's digit entry. */
  function ConvertDigit(h: Host, s: State, d: int): (t: State)
    requires 0 <= d <= 9
    ensures t.display == [DigitChar(d)]
    ensures t == s.(display := t.display, convertedValue := t.convertedValue)
    ensures ConvertValue(s.converterType, s.fromUnit, s.toUnit, d as real).None? ==>
              t.convertedValue == s.convertedValue
    ensures ConvertValue(s.converterType, s.fromUnit, s.toUnit, d as real).Some? ==>
              t.convertedValue == FormatNumber(h, Finite(ConvertValue(s.converterType, s.fromUnit, s.toUnit, d as real).value))
  {
    var converted :=
      match ConvertValue(s.converterType, s.fromUnit, s.toUnit, d as real)
      case Some(v) => FormatNumber(h, Finite(v))
      case None => s.convertedValue;
    s.(display := [DigitChar(d)], convertedValue := converted)
  }

  /**
   * `inputNumber`: in converter mode the digit is converted; otherwise a
   * fresh operand starts with the digit, a lone "0" is replaced, and any
   * other display is extended.
   */
  function InputNumber(h: Host, s: State, d: int): (t: State)
    requires 0 <= d <= 9
    ensures s.mode == Converter ==>
              t.display == [DigitChar(d)] && t.expression == s.expression &&
              t.waitingForOperand == s.waitingForOperand
    ensures s.mode != Converter && s.waitingForOperand ==>
              t.display == [DigitChar(d)] && t.expression == [DigitChar(d)]
    ensures s.mode != Converter && !s.waitingForOperand ==>
              t.display == (if s.display == "0" then [DigitChar(d)] else s.display + [DigitChar(d)]) &&
              t.expression == s.expression + [DigitChar(d)]
    ensures s.mode == Converter ==> t == ConvertDigit(h, s, d)
    ensures s.mode != Converter ==>
              t == s.(display := t.display, expression := t.expression, waitingForOperand := false)
    ensures t.previousValue == s.previousValue && t.operation == s.operation
    ensures t.history == s.history && t.memory == s.memory && t.mode == s.mode
    ensures t.converterType == s.converterType && t.fromUnit == s.fromUnit && t.toUnit == s.toUnit
    ensures Inv(s) ==> Inv(t)
  {
    var c := DigitChar(d);
    if s.mode == Converter then ConvertDigit(h, s, d)
    else if s.waitingForOperand then
      s.(display := [c], expression := [c], waitingForOperand := false)
    else
      s.(display := if s.display == "0" then [c] else s.display + [c],
         expression := s.expression + [c])
  }

  /** `inputDecimal`: a number never gets a second decimal point. */
  function InputDecimal(s: State): (t: State)
    ensures s.waitingForOperand ==> t.display == "0." && t.expression == "0." && !t.waitingForOperand
    ensures !s.waitingForOperand && '.' in s.display ==> t == s
    ensures !s.waitingForOperand && '.' !in s.display ==>
              t.display == s.display + "." && t.expression == s.expression + "."
    ensures '.' in t.display
    ensures s.waitingForOperand || AtMostOneDot(s.display) ==> AtMostOneDot(t.display)
    ensures t == s.(display := t.display, expression := t.expression, waitingForOperand := t.waitingForOperand)
    ensures Inv(s) ==> Inv(t)
  {
    if s.waitingForOperand then
      s.(display := "0.", expression := "0.", waitingForOperand := false)
    else if '.' !in s.display then
      s.(display := s.display + ".", expression := s.expression + ".")
    else s
  }

  /** `clear`: the entry and the pending operation are reset; history and memory stay. */
  function Clear(s: State): (t: State)
    ensures t.display == "0" && t.expression == ""
    ensures t.previousValue.None? && t.operation.None? && !t.waitingForOperand
    ensures t.history == s.history && t.memory == s.memory && t.mode == s.mode
    ensures t.converterType == s.converterType && t.fromUnit == s.fromUnit && t.toUnit == s.toUnit
    ensures t.convertedValue == s.convertedValue
    ensures Inv(s) ==> Inv(t)
  {
    s.(display := "0", expression := "", previousValue := None, operation := None,
       waitingForOperand := false)
  }

  /** `clearAll`: `clear`, then the history is emptied and the memory zeroed. */
  function ClearAll(s: State): (t: State)
    ensures t == Clear(s).(history := [], memory := Finite(0.0))
    ensures t.display == "0" && t.previousValue.None? && t.operation.None? && !t.waitingForOperand
    ensures t.history == [] && t.memory == Finite(0.0) && t.mode == s.mode
    ensures Inv(t)
  {
    Clear(s).(history := [], memory := Finite(0.0))
  }

  /** The host never renders a finite number with an '='. */
  ghost predicate RendersNoEquals(h: Host) {
    forall x :: '=' !in h.render(x)
  }

  /** The strings a number can be displayed as, for a host whose renderings hold no '='. */
  lemma FormattedHasNoEquals(h: Host, n: Num)
    requires RendersNoEquals(h)
    ensures '=' !in FormatNumber(h, n)
  {
  }

  /**
   * The history entry of a binary operation, `a op b = r`.  When neither
   * the operator nor a formatted operand holds an '=', recalling the entry
   * gives back exactly the displayed result.
   */
  function BinaryEntry(h: Host, a: Num, op: string, b: Num, r: Num): (e: string)
    ensures ('=' !in op && '=' !in FormatNumber(h, a) && '=' !in FormatNumber(h, b) &&
             '=' !in FormatNumber(h, r)) ==> SecondSegment(e) == Some(FormatNumber(h, r))
    ensures FindSeparator(e, 0).Some?
  {
    var lhs := FormatNumber(h, a) + " " + op + " " + FormatNumber(h, b);
    var e := lhs + Separator + FormatNumber(h, r);
    assert SeparatorAt(e, |lhs|) by { assert e[|lhs|..|lhs| + |Separator|] == Separator; }
    if '=' !in lhs && '=' !in FormatNumber(h, r) then
      RecallEntry(lhs, FormatNumber(h, r));
      e
    else e
  }

  /**
   * `performOperation`: the displayed value becomes the left operand, or,
   * when an operation is pending, completes it (a NaN or zero left operand
   * reads as 0); either way the new operator is stored and the next digit
   * starts a fresh operand.  `waitingForOperand` is never consulted.
   */
  function PerformOperation(h: Host, s: State, next: string): (t: State)
    ensures t.operation == Some(next) && t.waitingForOperand && t.previousValue.Some?
    ensures s.previousValue.None? ==>
              t == s.(previousValue := Some(h.parse(s.display)), expression := s.display + " " + next + " ",
                      operation := Some(next), waitingForOperand := true)
    ensures Pending(s) ==>
              var v := Calculate(h, OrZero(s.previousValue.value), h.parse(s.display), s.operation.value);
              t == s.(display := FormatNumber(h, v), previousValue := Some(v),
                      history := Push(s.history, BinaryEntry(h, OrZero(s.previousValue.value), s.operation.value, h.parse(s.display), v)),
                      expression := FormatNumber(h, v) + " " + next + " ",
                      operation := Some(next), waitingForOperand := true)
    ensures s.previousValue.Some? && !Pending(s) ==>
              t == s.(operation := Some(next), waitingForOperand := true)
    ensures t.memory == s.memory && t.mode == s.mode && t.convertedValue == s.convertedValue
    ensures t.converterType == s.converterType && t.fromUnit == s.fromUnit && t.toUnit == s.toUnit
    ensures Inv(s) ==> Inv(t)
  {
    var input := h.parse(s.display);
    var s' :=
      if s.previousValue.None? then
        s.(previousValue := Some(input), expression := s.display + " " + next + " ")
      else if s.operation.Some? && s.operation.value != "" then
        var current := OrZero(s.previousValue.value);
        var v := Calculate(h, current, input, s.operation.value);
        s.(display := FormatNumber(h, v), previousValue := Some(v),
           history := Push(s.history, BinaryEntry(h, current, s.operation.value, input, v)),
           expression := FormatNumber(h, v) + " " + next + " ")
      else s;
    s'.(waitingForOperand := true, operation := Some(next))
  }

  /**
   * `performEquals`: only a pending operation is completed; its result is
   * displayed and logged, and the pending operation is dropped.
   */
  function PerformEquals(h: Host, s: State): (t: State)
    ensures !Pending(s) ==> t == s
    ensures Pending(s) ==>
              var v := Calculate(h, s.previousValue.value, h.parse(s.display), s.operation.value);
              t.display == FormatNumber(h, v) && t.expression == t.display &&
              t.history == Push(s.history, BinaryEntry(h, s.previousValue.value, s.operation.value, h.parse(s.display), v))
    ensures Pending(s) ==> t.previousValue.None? && t.operation.None? && t.waitingForOperand
    ensures Pending(s) ==>
              t == s.(display := t.display, expression := t.expression, history := t.history,
                      previousValue := None, operation := None, waitingForOperand := true)
    ensures t.memory == s.memory && t.mode == s.mode && t.convertedValue == s.convertedValue
    ensures Inv(s) ==> Inv(t)
  {
    if Pending(s) then
      var input := h.parse(s.display);
      var v := Calculate(h, s.previousValue.value, input, s.operation.value);
      var shown := FormatNumber(h, v);
      s.(history := Push(s.history, BinaryEntry(h, s.previousValue.value, s.operation.value, input, v)),
         display := shown, expression := shown, previousValue := None, operation := None,
         waitingForOperand := true)
    else s
  }

  /**
   * The history entry of a scientific function, `func(x) = r`; it too
   * recalls its displayed result when no part of it holds an '='.
   */
  function FunctionEntry(h: Host, func: string, x: Num, r: Num): (e: string)
    ensures '=' !in func && '=' !in FormatNumber(h, x) && '=' !in FormatNumber(h, r) ==>
              SecondSegment(e) == Some(FormatNumber(h, r))
    ensures FindSeparator(e, 0).Some?
  {
    var lhs := func + "(" + FormatNumber(h, x) + ")";
    var e := lhs + Separator + FormatNumber(h, r);
    assert SeparatorAt(e, |lhs|) by { assert e[|lhs|..|lhs| + |Separator|] == Separator; }
    if '=' !in lhs && '=' !in FormatNumber(h, r) then
      RecallEntry(lhs, FormatNumber(h, r));
      e
    else e
  }

  /**
   * `performScientific`: the function of the displayed value is displayed
   * and logged; a pending binary operation is left as it was.
   */
  function PerformScientific(h: Host, s: State, func: string): (t: State)
    requires func == "!" ==> !h.parse(s.display).PosInf?
    ensures var x := h.parse(s.display); var r := Unary(h, func, x);
            t.display == FormatNumber(h, r) && t.expression == t.display &&
            t.history == Push(s.history, FunctionEntry(h, func, x, r))
    ensures t.waitingForOperand
    ensures t.previousValue == s.previousValue && t.operation == s.operation
    ensures t == s.(display := t.display, expression := t.expression, history := t.history,
                    waitingForOperand := true)
    ensures Inv(s) ==> Inv(t)
  {
    var x := h.parse(s.display);
    var r := Unary(h, func, x);
    var shown := FormatNumber(h, r);
    s.(history := Push(s.history, FunctionEntry(h, func, x, r)),
       display := shown, expression := shown, waitingForOperand := true)
  }

  /** `backspace`: drop the last character, or fall back to "0"; never empty. */
  function Backspace(s: State): (t: State)
    ensures |s.display| > 1 && s.display != "0" ==>
              t.display == s.display[..|s.display| - 1] &&
              t.expression == (if s.expression == "" then "" else s.expression[..|s.expression| - 1])
    ensures !(|s.display| > 1 && s.display != "0") ==> t.display == "0" && t.expression == ""
    ensures |t.display| > 0
    ensures t == s.(display := t.display, expression := t.expression)
    ensures Inv(s) ==> Inv(t)
  {
    if |s.display| > 1 && s.display != "0" then
      s.(display := s.display[..|s.display| - 1],
         expression := if s.expression == "" then "" else s.expression[..|s.expression| - 1])
    else
      s.(display := "0", expression := "")
  }

  /** `memoryClear` */
  function MemoryClear(s: State): (t: State)
    ensures t.memory == Finite(0.0) && t == s.(memory := t.memory)
  {
    s.(memory := Finite(0.0))
  }

  /** `memoryRecall`: the memory, formatted, becomes a finished operand. */
  function MemoryRecall(h: Host, s: State): (t: State)
    ensures t.display == FormatNumber(h, s.memory) && t.expression == t.display && t.waitingForOperand
    ensures t == s.(display := t.display, expression := t.expression, waitingForOperand := true)
  {
    var shown := FormatNumber(h, s.memory);
    s.(display := shown, expression := shown, waitingForOperand := true)
  }

  /** `memoryAdd` */
  function MemoryAdd(h: Host, s: State): (t: State)
    ensures s.memory.Finite? && h.parse(s.display).Finite? ==>
              t.memory == Finite(s.memory.val + h.parse(s.display).val)
    ensures t == s.(memory := t.memory)
  {
    s.(memory := Add(s.memory, h.parse(s.display)))
  }

  /** `memorySubtract` */
  function MemorySubtract(h: Host, s: State): (t: State)
    ensures s.memory.Finite? && h.parse(s.display).Finite? ==>
              t.memory == Finite(s.memory.val - h.parse(s.display).val)
    ensures t == s.(memory := t.memory)
  {
    s.(memory := Sub(s.memory, h.parse(s.display)))
  }

  /** `memoryStore` */
  function MemoryStore(h: Host, s: State): (t: State)
    ensures t.memory == h.parse(s.display) && t == s.(memory := t.memory)
  {
    s.(memory := h.parse(s.display))
  }

  /** `result && result !== 'Error'`: a segment that can be loaded. */
  predicate Recallable(r: Option<string>) {
    r.Some? && r.value != "" && r.value != "Error"
  }

  /**
   * Tapping history entry `i`: its second " = "-segment, unless missing,
   * empty or "Error", is loaded into the display (the operand flag is left
   * as it is).
   */
  function RecallHistory(s: State, i: nat): (t: State)
    requires i < |s.history|
    ensures Recallable(SecondSegment(s.history[i])) ==>
              t == s.(display := SecondSegment(s.history[i]).value,
                      expression := SecondSegment(s.history[i]).value)
    ensures !Recallable(SecondSegment(s.history[i])) ==> t == s
    ensures t.history == s.history && t.waitingForOperand == s.waitingForOperand
  {
    match SecondSegment(s.history[i])
    case Some(r) =>
      if r != "" && r != "Error" then s.(display := r, expression := r) else s
    case None => s
  }

  /** The "Clear All" link of the history panel. */
  function ClearHistory(s: State): (t: State)
    ensures t.history == [] && t == s.(history := [])
  {
    s.(history := [])
  }

  /** Choosing a mode in the selector also clears the entry. */
  function SelectMode(s: State, m: Mode): (t: State)
    ensures t.mode == m && t == Clear(s).(mode := m)
    ensures t.display == "0" && t.previousValue.None? && t.operation.None?
    ensures t.history == s.history && t.memory == s.memory
    ensures Inv(s) ==> Inv(t)
  {
    Clear(s).(mode := m)
  }

  /** The header toggle flips Basic and Scientific and clears nothing. */
  function ToggleMode(s: State): (t: State)
    ensures t.mode == (if s.mode == Basic then Scientific else Basic)
    ensures t == s.(mode := t.mode)
  {
    s.(mode := if s.mode == Basic then Scientific else Basic)
  }

  function SelectCategory(s: State, c: Category): (t: State)
    ensures t.converterType == c && t == s.(converterType := c)
  {
    s.(converterType := c)
  }

  function SelectFromUnit(s: State, u: string): (t: State)
    ensures t.fromUnit == u && t == s.(fromUnit := u)
  {
    s.(fromUnit := u)
  }

  function SelectToUnit(s: State, u: string): (t: State)
    ensures t.toUnit == u && t == s.(toUnit := u)
  {
    s.(toUnit := u)
  }

  /** The swap button exchanges the two units and recomputes nothing. */
  function SwapUnits(s: State): (t: State)
    ensures t.fromUnit == s.toUnit && t.toUnit == s.fromUnit
    ensures t == s.(fromUnit := t.fromUnit, toUnit := t.toUnit)
  {
    s.(fromUnit := s.toUnit, toUnit := s.fromUnit)
  }
}
