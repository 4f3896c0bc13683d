/**
 * Properties of the engine that relate several handler calls.
 */
module EngineProperties {
  import opened Numbers
  import opened Arithmetic
  import opened Conversion
  import opened History
  import opened Engine

  /** The starting state satisfies the engine invariant. */
  lemma InitialIsValid()
    ensures Inv(Initial) && !Pending(Initial)
    ensures Initial.display == "0" && Initial.expression == "" && !Initial.waitingForOperand
    ensures Initial.history == [] && Initial.memory == Finite(0.0) && Initial.mode == Basic
    ensures Initial.converterType == Length && Initial.fromUnit == "m" && Initial.toUnit == "ft"
    ensures Initial.convertedValue == "0"
  {
  }

  /** A second "=" in a row changes nothing: no new entry, same display. */
  lemma EqualsTwice(h: Host, s: State)
    ensures PerformEquals(h, PerformEquals(h, s)) == PerformEquals(h, s)
  {
  }

  /** `performOperation` does not look at `waitingForOperand`. */
  lemma OperationIgnoresWaiting(h: Host, s: State, next: string)
    ensures PerformOperation(h, s.(waitingForOperand := true), next) ==
            PerformOperation(h, s.(waitingForOperand := false), next)
  {
  }

  /**
   * Pressing a second operator straight after a first one does not merely
   * replace it: the first one is applied again, to the stored result and
   * the value on the display, and logged.
   */
  lemma OperatorTwice(h: Host, s: State, first: string, second: string)
    requires first != ""
    ensures var t := PerformOperation(h, s, first);
            var u := PerformOperation(h, t, second);
            var v := Calculate(h, OrZero(t.previousValue.value), h.parse(t.display), first);
            u.operation == Some(second) && u.previousValue == Some(v) &&
            u.history == Push(t.history, BinaryEntry(h, OrZero(t.previousValue.value), first, h.parse(t.display), v))
  {
  }

  /**
   * The entry "=" writes can be recalled: tapping it loads the result it
   * displayed, unless that result is "Error".
   */
  lemma RecallAfterEquals(h: Host, s: State)
    requires Pending(s) && Inv(s)
    requires RendersNoEquals(h) && forall x :: h.render(x) != ""
    requires '=' !in s.operation.value
    ensures var t := PerformEquals(h, s);
            t.display != "Error" ==> SecondSegment(t.history[0]) == Some(t.display) &&
                                     RecallHistory(t, 0) == t.(expression := t.display)
    ensures var t := PerformEquals(h, s);
            t.display == "Error" ==> RecallHistory(t, 0) == t
  {
    var x := h.parse(s.display);
    var v := Calculate(h, s.previousValue.value, x, s.operation.value);
    FormattedHasNoEquals(h, s.previousValue.value);
    FormattedHasNoEquals(h, x);
    FormattedHasNoEquals(h, v);
  }

  /**
   * Likewise for the entry a scientific function writes: its segment is the
   * displayed result, so tapping it right away changes nothing.
   */
  lemma RecallAfterFunction(h: Host, s: State, func: string)
    requires func == "!" ==> !h.parse(s.display).PosInf?
    requires RendersNoEquals(h) && forall x :: h.render(x) != ""
    requires '=' !in func
    ensures var t := PerformScientific(h, s, func);
            t.display != "Error" ==> SecondSegment(t.history[0]) == Some(t.display) &&
                                     Recallable(Some(t.display))
    ensures var t := PerformScientific(h, s, func);
            RecallHistory(t, 0) == t
  {
    var x := h.parse(s.display);
    FormattedHasNoEquals(h, x);
    FormattedHasNoEquals(h, Unary(h, func, x));
  }

  /**
   * 7 + 3 + 2 = gives 12 and logs "7 + 3 = 10" and then "10 + 2 = 12", for
   * a host that parses and renders these small integers as usual.
   */
  lemma ChainedOperations(h: Host)
    requires h.parse("7") == Finite(7.0) && h.parse("3") == Finite(3.0) && h.parse("2") == Finite(2.0)
    requires h.render(7.0) == "7" && h.render(3.0) == "3" && h.render(2.0) == "2"
    requires h.render(10.0) == "10" && h.render(12.0) == "12"
    ensures var s1 := InputNumber(h, Initial, 7);
            var s2 := PerformOperation(h, s1, "+");
            var s3 := InputNumber(h, s2, 3);
            var s4 := PerformOperation(h, s3, "+");
            var s5 := InputNumber(h, s4, 2);
            var s6 := PerformEquals(h, s5);
            s6.display == "12" && s6.history == ["10 + 2 = 12", "7 + 3 = 10"] &&
            s6.previousValue.None? && s6.operation.None?
  {
    FirstSum(h);
    SecondSum(h);
  }

  /** The state after 7 + 3 +, which completes 7 + 3. */
  function AfterFirstSum(): State {
    Initial.(display := "10", expression := "10 + ", previousValue := Some(Finite(10.0)),
             operation := Some("+"), waitingForOperand := true, history := ["7 + 3 = 10"])
  }

  lemma FirstSum(h: Host)
    requires h.parse("7") == Finite(7.0) && h.parse("3") == Finite(3.0)
    requires h.render(7.0) == "7" && h.render(3.0) == "3" && h.render(10.0) == "10"
    ensures var s1 := InputNumber(h, Initial, 7);
            var s2 := PerformOperation(h, s1, "+");
            var s3 := InputNumber(h, s2, 3);
            PerformOperation(h, s3, "+") == AfterFirstSum()
  {
    var s1 := InputNumber(h, Initial, 7);
    assert s1 == Initial.(display := "7", expression := "7");
    var s2 := PerformOperation(h, s1, "+");
    assert s2 == s1.(previousValue := Some(Finite(7.0)), expression := "7 + ",
                     operation := Some("+"), waitingForOperand := true);
    var s3 := InputNumber(h, s2, 3);
    assert s3 == s2.(display := "3", expression := "3", waitingForOperand := false);
    EntryText(h, Finite(7.0), "+", Finite(3.0), Finite(10.0));
    SmallEntries();
    assert Push([], "7 + 3 = 10") == ["7 + 3 = 10"];
  }

  lemma SecondSum(h: Host)
    requires h.parse("2") == Finite(2.0)
    requires h.render(10.0) == "10" && h.render(2.0) == "2" && h.render(12.0) == "12"
    ensures var s6 := PerformEquals(h, InputNumber(h, AfterFirstSum(), 2));
            s6.display == "12" && s6.history == ["10 + 2 = 12", "7 + 3 = 10"] &&
            s6.previousValue.None? && s6.operation.None?
  {
    var s5 := InputNumber(h, AfterFirstSum(), 2);
    assert s5 == AfterFirstSum().(display := "2", expression := "2", waitingForOperand := false);
    EntryText(h, Finite(10.0), "+", Finite(2.0), Finite(12.0));
    SmallEntries();
    assert Push(["7 + 3 = 10"], "10 + 2 = 12") == ["10 + 2 = 12", "7 + 3 = 10"];
  }

  lemma EntryText(h: Host, a: Num, op: string, b: Num, r: Num)
    ensures BinaryEntry(h, a, op, b, r) ==
            FormatNumber(h, a) + " " + op + " " + FormatNumber(h, b) + Separator + FormatNumber(h, r)
  {
  }

  lemma SmallEntries()
    ensures "7" + " " + "+" + " " + "3" + Separator + "10" == "7 + 3 = 10"
    ensures "10" + " " + "+" + " " + "2" + Separator + "12" == "10 + 2 = 12"
    ensures "7" + " " + "+" + " " == "7 + " && "10" + " " + "+" + " " == "10 + "
  {
  }

  /** The converter's numeric result for the current units. */
  function Converted(s: State, value: real): Option<real> {
    ConvertValue(s.converterType, s.fromUnit, s.toUnit, value)
  }

  /**
   * After the swap button, converting the converted value gives back the
   * original, whenever the units belong to the category.
   */
  lemma SwapInvertsConversion(s: State, value: real)
    requires s.converterType == Temperature ||
             (s.fromUnit in Units(s.converterType) && s.toUnit in Units(s.converterType))
    ensures Converted(s, value).Some?
    ensures Converted(SwapUnits(s), Converted(s, value).value) == Some(value)
  {
    if s.converterType == Temperature {
      TemperatureRoundTrip(value, s.fromUnit, s.toUnit);
    } else {
      ConvertRatioSwap(s.converterType, s.fromUnit, s.toUnit, value);
    }
  }

  /**
   * Choosing a category keeps the old units, so after going from length to
   * weight with the initial units the converter's lookup fails (the source
   * raises a TypeError there) and the converted value is not updated.
   */
  lemma StaleUnitsAfterCategoryChange(h: Host, d: int)
    requires 0 <= d <= 9
    ensures var s := SelectCategory(Initial, Weight).(mode := Converter);
            Converted(s, d as real).None? &&
            InputNumber(h, s, d).convertedValue == s.convertedValue
  {
  }

  /** Switching mode through the selector keeps memory and history only. */
  lemma ModeSwitchKeepsMemoryAndHistory(s: State, m: Mode)
    ensures var t := SelectMode(s, m);
            t.memory == s.memory && t.history == s.history &&
            t.display == Initial.display && t.previousValue.None? && t.operation.None? &&
            !t.waitingForOperand && t.expression == Initial.expression
  {
  }

  /** No memory handler writes the history. */
  lemma MemoryKeepsHistory(h: Host, s: State)
    ensures MemoryClear(s).history == s.history && MemoryRecall(h, s).history == s.history
    ensures MemoryAdd(h, s).history == s.history && MemorySubtract(h, s).history == s.history
    ensures MemoryStore(h, s).history == s.history
  {
  }
}
