/**
 * The `App` component's state cells as the fields of one object, and its
 * handlers as methods that update them in place.  Each method is proved to
 * take the step the Engine module defines, and to keep the engine invariant.
 */
module Calculator {
  import opened Numbers
  import opened Arithmetic
  import opened Conversion
  import opened History
  import Engine

  class Calculator {
    const host: Host
    var display: string
    var expression: string
    var previousValue: Option<Num>
    var operation: Option<string>
    var waitingForOperand: bool
    var history: seq<string>
    var memory: Num
    var mode: Engine.Mode
    var converterType: Category
    var fromUnit: string
    var toUnit: string
    var convertedValue: string

    /** The current values of all cells. */
    function Snapshot(): Engine.State
      reads this
    {
      Engine.State(display, expression, previousValue, operation, waitingForOperand, history,
                   memory, mode, converterType, fromUnit, toUnit, convertedValue)
    }

    predicate Valid()
      reads this
    {
      Engine.Inv(Snapshot())
    }

    /** The `useState` initial values. */
    constructor (h: Host)
      ensures host == h && Snapshot() == Engine.Initial && Valid()
    {
      host := h;
      display, expression := "0", "";
      previousValue, operation, waitingForOperand := None, None, false;
      history, memory := [], Finite(0.0);
      mode := Engine.Basic;
      converterType, fromUnit, toUnit, convertedValue := Length, "m", "ft", "0";
    }

    /**
     * `convertUnits` for a one-digit entry; `ok` is false where the source
     * raises a TypeError because a unit is not in the category's table.
     */
    method ConvertDigit(d: int) returns (ok: bool)
      requires 0 <= d <= 9
      modifies this
      ensures old(Valid()) ==> Valid()
      ensures Snapshot() == Engine.ConvertDigit(host, old(Snapshot()), d)
      ensures ok == Engine.ConvertValue(converterType, fromUnit, toUnit, d as real).Some?
    {
      display := [Engine.DigitChar(d)];
      var result := Engine.ConvertValue(converterType, fromUnit, toUnit, d as real);
      ok := result.Some?;
      if ok {
        convertedValue := FormatNumber(host, Finite(result.value));
      }
    }

    method InputNumber(d: int)
      requires 0 <= d <= 9 && Valid()
      modifies this
      ensures Snapshot() == Engine.InputNumber(host, old(Snapshot()), d) && Valid()
    {
      if mode == Engine.Converter {
        var _ := ConvertDigit(d);
        return;
      }
      var c := Engine.DigitChar(d);
      if waitingForOperand {
        display := [c];
        expression := [c];
        waitingForOperand := false;
      } else {
        display := if display == "0" then [c] else display + [c];
        expression := expression + [c];
      }
    }

    method InputDecimal()
      requires Valid()
      modifies this
      ensures Snapshot() == Engine.InputDecimal(old(Snapshot())) && Valid()
    {
      if waitingForOperand {
        display := "0.";
        expression := "0.";
        waitingForOperand := false;
      } else if '.' !in display {
        display := display + ".";
        expression := expression + ".";
      }
    }

    method Clear()
      requires Valid()
      modifies this
      ensures Snapshot() == Engine.Clear(old(Snapshot())) && Valid()
      ensures history == old(history) && memory == old(memory)
    {
      display := "0";
      expression := "";
      previousValue := None;
      operation := None;
      waitingForOperand := false;
    }

    method ClearAll()
      requires Valid()
      modifies this
      ensures Snapshot() == Engine.ClearAll(old(Snapshot())) && Valid()
    {
      Clear();
      history := [];
      memory := Finite(0.0);
    }

    method PerformOperation(next: string)
      requires Valid()
      modifies this
      ensures Snapshot() == Engine.PerformOperation(host, old(Snapshot()), next) && Valid()
      ensures operation == Some(next) && waitingForOperand
    {
      var input := host.parse(display);
      if previousValue.None? {
        previousValue := Some(input);
        expression := display + " " + next + " ";
      } else if operation.Some? && operation.value != "" {
        var current := OrZero(previousValue.value);
        var v := Calculate(host, current, input, operation.value);
        display := FormatNumber(host, v);
        previousValue := Some(v);
        history := Push(history, Engine.BinaryEntry(host, current, operation.value, input, v));
        expression := FormatNumber(host, v) + " " + next + " ";
      }
      waitingForOperand := true;
      operation := Some(next);
    }

    method PerformEquals()
      requires Valid()
      modifies this
      ensures Snapshot() == Engine.PerformEquals(host, old(Snapshot())) && Valid()
    {
      var input := host.parse(display);
      if previousValue.Some? && operation.Some? && operation.value != "" {
        var v := Calculate(host, previousValue.value, input, operation.value);
        var shown := FormatNumber(host, v);
        history := Push(history, Engine.BinaryEntry(host, previousValue.value, operation.value, input, v));
        display := shown;
        expression := shown;
        previousValue := None;
        operation := None;
        waitingForOperand := true;
      }
    }

    method PerformScientific(func: string)
      requires Valid()
      requires func == "!" ==> !host.parse(display).PosInf?
      modifies this
      ensures Snapshot() == Engine.PerformScientific(host, old(Snapshot()), func) && Valid()
    {
      var x := host.parse(display);
      var r;
      if func == "!" {
        r := Factorial(x);
      } else {
        r := Unary(host, func, x);
      }
      var shown := FormatNumber(host, r);
      history := Push(history, Engine.FunctionEntry(host, func, x, r));
      display := shown;
      expression := shown;
      waitingForOperand := true;
    }

    method Backspace()
      requires Valid()
      modifies this
      ensures Snapshot() == Engine.Backspace(old(Snapshot())) && Valid()
      ensures |display| > 0
    {
      if |display| > 1 && display != "0" {
        display := display[..|display| - 1];
        expression := if expression == "" then "" else expression[..|expression| - 1];
      } else {
        display := "0";
        expression := "";
      }
    }

    method MemoryClear()
      modifies this
      ensures old(Valid()) ==> Valid()
      ensures Snapshot() == Engine.MemoryClear(old(Snapshot()))
    {
      memory := Finite(0.0);
    }

    method MemoryRecall()
      modifies this
      ensures old(Valid()) ==> Valid()
      ensures Snapshot() == Engine.MemoryRecall(host, old(Snapshot()))
    {
      var shown := FormatNumber(host, memory);
      display := shown;
      expression := shown;
      waitingForOperand := true;
    }

    method MemoryAdd()
      modifies this
      ensures old(Valid()) ==> Valid()
      ensures Snapshot() == Engine.MemoryAdd(host, old(Snapshot()))
    {
      memory := Add(memory, host.parse(display));
    }

    method MemorySubtract()
      modifies this
      ensures old(Valid()) ==> Valid()
      ensures Snapshot() == Engine.MemorySubtract(host, old(Snapshot()))
    {
      memory := Sub(memory, host.parse(display));
    }

    method MemoryStore()
      modifies this
      ensures old(Valid()) ==> Valid()
      ensures Snapshot() == Engine.MemoryStore(host, old(Snapshot()))
    {
      memory := host.parse(display);
    }

    /** Tapping the `i`-th entry of the history panel. */
    method RecallHistory(i: nat)
      requires i < |history|
      modifies this
      ensures old(Valid()) ==> Valid()
      ensures Snapshot() == Engine.RecallHistory(old(Snapshot()), i)
    {
      var result := SecondSegment(history[i]);
      if result.Some? && result.value != "" && result.value != "Error" {
        display := result.value;
        expression := result.value;
      }
    }

    method ClearHistory()
      modifies this
      ensures old(Valid()) ==> Valid()
      ensures Snapshot() == Engine.ClearHistory(old(Snapshot()))
    {
      history := [];
    }

    method SelectMode(m: Engine.Mode)
      requires Valid()
      modifies this
      ensures Snapshot() == Engine.SelectMode(old(Snapshot()), m) && Valid()
    {
      mode := m;
      Clear();
    }

    method ToggleMode()
      modifies this
      ensures old(Valid()) ==> Valid()
      ensures Snapshot() == Engine.ToggleMode(old(Snapshot()))
    {
      mode := if mode == Engine.Basic then Engine.Scientific else Engine.Basic;
    }

    method SelectCategory(c: Category)
      modifies this
      ensures old(Valid()) ==> Valid()
      ensures Snapshot() == Engine.SelectCategory(old(Snapshot()), c)
    {
      converterType := c;
    }

    method SelectFromUnit(u: string)
      modifies this
      ensures old(Valid()) ==> Valid()
      ensures Snapshot() == Engine.SelectFromUnit(old(Snapshot()), u)
    {
      fromUnit := u;
    }

    method SelectToUnit(u: string)
      modifies this
      ensures old(Valid()) ==> Valid()
      ensures Snapshot() == Engine.SelectToUnit(old(Snapshot()), u)
    {
      toUnit := u;
    }

    method SwapUnits()
      modifies this
      ensures old(Valid()) ==> Valid()
      ensures Snapshot() == Engine.SwapUnits(old(Snapshot()))
    {
      fromUnit, toUnit := toUnit, fromUnit;
    }
  }
}
