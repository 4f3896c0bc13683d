/**
 * The converter's tables: ratio conversion through a per-category factor
 * ("units per one reference unit"), and the pairwise temperature formulas
 * with their identity fallback.
 */
module Conversion {
  import opened Numbers

  /** The categories the converter offers (those with a table entry). */
  datatype Category = Length | Weight | Temperature

  /** The unit ids of a category, in table order. */
  function Units(c: Category): (us: seq<string>)
    ensures |us| > 0
  {
    match c
    case Length => ["m", "cm", "mm", "km", "ft", "inch", "yard"]
    case Weight => ["kg", "g", "lb", "oz", "ton"]
    case Temperature => ["c", "f", "k"]
  }

  /**
   * The factor of `unit` in category `c`; None when the category has no
   * such unit or, for temperature, no factors at all.
   */
  function Factor(c: Category, unit: string): (f: Option<real>)
    ensures f.Some? ==> f.value > 0.0
    ensures f.Some? <==> c != Temperature && unit in Units(c)
  {
    match c
    case Length =>
      if unit == "m" then Some(1.0)
      else if unit == "cm" then Some(100.0)
      else if unit == "mm" then Some(1000.0)
      else if unit == "km" then Some(0.001)
      else if unit == "ft" then Some(3.28084)
      else if unit == "inch" then Some(39.3701)
      else if unit == "yard" then Some(1.09361)
      else None
    case Weight =>
      if unit == "kg" then Some(1.0)
      else if unit == "g" then Some(1000.0)
      else if unit == "lb" then Some(2.20462)
      else if unit == "oz" then Some(35.274)
      else if unit == "ton" then Some(0.001)
      else None
    case Temperature => None
  }

  /**
   * `(value / fromFactor) * toFactor`: the same amount of the reference
   * unit, now counted in units of `toFactor`.
   */
  function Ratio(value: real, fromFactor: real, toFactor: real): (r: real)
    requires fromFactor > 0.0
    ensures r * fromFactor == value * toFactor
    ensures toFactor > 0.0 ==> (r > 0.0 <==> value > 0.0) && (r == 0.0 <==> value == 0.0)
  {
    (value / fromFactor) * toFactor
  }

  /**
   * The ratio branch of `convertUnits`: None where the source looks up a
   * unit the category does not have (it then raises a TypeError).
   */
  function ConvertRatio(c: Category, from: string, to: string, value: real): (r: Option<real>)
    requires c != Temperature
    ensures r.Some? <==> from in Units(c) && to in Units(c)
    ensures from == to && r.Some? ==> r.value == value
    ensures r.Some? ==> r.value * Factor(c, from).value == value * Factor(c, to).value
  {
    var ff := Factor(c, from);
    var tf := Factor(c, to);
    if ff.Some? && tf.Some? then
      RatioFacts(value, ff.value, tf.value);
      Some(Ratio(value, ff.value, tf.value))
    else None
  }

  /** The ratio relation, and the identity when both factors are the same. */
  lemma RatioFacts(value: real, ff: real, tf: real)
    requires ff > 0.0
    ensures Ratio(value, ff, tf) * ff == value * tf
    ensures ff == tf ==> Ratio(value, ff, tf) == value
  {
  }

  /** Converting there and back through the reference unit is the identity. */
  lemma RatioRoundTrip(value: real, a: real, b: real)
    requires a > 0.0 && b > 0.0
    ensures Ratio(Ratio(value, a, b), b, a) == value
  {
    var y := Ratio(value, a, b);
    assert y / b == value / a;
    assert (value / a) * a == value;
  }

  /** Swapping the two units of a ratio conversion inverts it. */
  lemma ConvertRatioSwap(c: Category, from: string, to: string, value: real)
    requires c != Temperature && from in Units(c) && to in Units(c)
    ensures ConvertRatio(c, from, to, value).Some?
    ensures ConvertRatio(c, to, from, ConvertRatio(c, from, to, value).value) == Some(value)
  {
    RatioRoundTrip(value, Factor(c, from).value, Factor(c, to).value);
  }

  /** One meter is 3.28084 feet, and back. */
  lemma MeterToFeet()
    ensures ConvertRatio(Length, "m", "ft", 1.0) == Some(3.28084)
    ensures ConvertRatio(Length, "ft", "m", 3.28084) == Some(1.0)
  {
  }

  /** The temperature units. */
  predicate IsTemperatureUnit(u: string) {
    u == "c" || u == "f" || u == "k"
  }

  /**
   * `convertTemperature`: a formula for each of the six ordered pairs of
   * distinct units among c, f and k, and the input unchanged otherwise.
   */
  function ConvertTemperature(value: real, from: string, to: string): (r: real)
    ensures !(IsTemperatureUnit(from) && IsTemperatureUnit(to) && from != to) ==> r == value
    ensures from == to ==> r == value
  {
    if from == "c" && to == "f" then (value * 9.0 / 5.0) + 32.0
    else if from == "f" && to == "c" then (value - 32.0) * 5.0 / 9.0
    else if from == "c" && to == "k" then value + 273.15
    else if from == "k" && to == "c" then value - 273.15
    else if from == "f" && to == "k" then ((value - 32.0) * 5.0 / 9.0) + 273.15
    else if from == "k" && to == "f" then ((value - 273.15) * 9.0 / 5.0) + 32.0
    else value
  }

  /** The temperature of `value` in `u`, in Celsius. */
  function ToCelsius(value: real, u: string): real {
    if u == "f" then (value - 32.0) * 5.0 / 9.0
    else if u == "k" then value - 273.15
    else value
  }

  /**
   * Every formula agrees with going through Celsius, so the table is
   * consistent: each formula is the composition of the two steps.
   */
  lemma TemperatureThroughCelsius(value: real, from: string, to: string)
    requires IsTemperatureUnit(from) && IsTemperatureUnit(to)
    ensures ToCelsius(ConvertTemperature(value, from, to), to) == ToCelsius(value, from)
  {
  }

  /** Freezing and boiling points of water. */
  lemma TemperatureExamples()
    ensures ConvertTemperature(0.0, "c", "f") == 32.0
    ensures ConvertTemperature(100.0, "c", "k") == 373.15
  {
  }

  /** Converting there and back is the identity, for every pair of unit ids. */
  lemma TemperatureRoundTrip(value: real, from: string, to: string)
    ensures ConvertTemperature(ConvertTemperature(value, from, to), to, from) == value
  {
  }

  /** Converting in two steps is converting in one, among c, f and k. */
  lemma TemperatureCompose(value: real, a: string, b: string, c: string)
    requires IsTemperatureUnit(a) && IsTemperatureUnit(b) && IsTemperatureUnit(c)
    ensures ConvertTemperature(ConvertTemperature(value, a, b), b, c) ==
            ConvertTemperature(value, a, c)
  {
  }
}
