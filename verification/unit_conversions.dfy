/**
 * The list converters of `src/utils/unitConverstions.js`: each maps a list of
 * base-unit samples (which may hold `null`) into a display unit.
 */
module UnitConversions {
  import opened JsValues

  /** `values.map((x) => (x != null ? f(x) : null))`. */
  function MapPresent(values: seq<JsNum>, f: real -> real): (r: seq<JsNum>)
    ensures |r| == |values|
    ensures forall i :: 0 <= i < |values| && IsNullish(values[i]) ==> r[i] == Null
    ensures forall i :: 0 <= i < |values| && !IsNullish(values[i]) ==> r[i] == Apply(values[i], f)
  {
    seq(|values|, i requires 0 <= i < |values| =>
      if IsNullish(values[i]) then Null else Apply(values[i], f))
  }

  /** `convertTemperature(values, unit)`: Celsius to Fahrenheit for `"F"`, otherwise the list itself. */
  function ConvertTemperature(values: seq<JsNum>, unit: string): (r: seq<JsNum>)
    ensures |r| == |values|
    ensures unit != "F" ==> r == values
    ensures forall i :: 0 <= i < |values| && values[i].Null? ==> r[i].Null?
    ensures forall i :: 0 <= i < |values| ==> (r[i].Num? <==> values[i].Num?)
  {
    if unit == "F" then MapPresent(values, c => c * 9.0 / 5.0 + 32.0) else values
  }

  /** `convertRainfall(values, unit)`: millimetres to inches for `"in"`, otherwise the list itself. */
  function ConvertRainfall(values: seq<JsNum>, unit: string): (r: seq<JsNum>)
    ensures |r| == |values|
    ensures unit != "in" ==> r == values
    ensures forall i :: 0 <= i < |values| && values[i].Null? ==> r[i].Null?
    ensures forall i :: 0 <= i < |values| ==> (r[i].Num? <==> values[i].Num?)
  {
    if unit == "in" then MapPresent(values, mm => mm * 0.0393701) else values
  }

  /** The per-sample factor of `convertWindSpeed`: only `"kmh"` and `"mph"` convert. */
  function WindFactor(unit: string): (k: real)
    ensures k > 0.0
  {
    match unit
    case "kmh" => 3.6
    case "mph" => 2.23694
    case _ => 1.0
  }

  /**
   * `convertWindSpeed(values, unit)`: always maps the list, so `undefined`
   * becomes `null` even when the unit is left as metres per second.
   */
  function ConvertWindSpeed(values: seq<JsNum>, unit: string): (r: seq<JsNum>)
    ensures |r| == |values|
    ensures forall i :: 0 <= i < |values| && IsNullish(values[i]) ==> r[i] == Null
    ensures forall i :: 0 <= i < |values| ==> (r[i].Num? <==> values[i].Num?)
    ensures unit != "kmh" && unit != "mph" ==>
      forall i :: 0 <= i < |values| && !IsNullish(values[i]) ==> r[i] == values[i]
  {
    MapPresent(values, mps => mps * WindFactor(unit))
  }

  /** `convertHumidity(values)`: humidity is already a percentage. */
  function ConvertHumidity(values: seq<JsNum>): (r: seq<JsNum>)
    ensures r == values
  {
    values
  }

  /** Every non-identity conversion is strictly increasing on the numbers it converts. */
  lemma ConversionsStrictlyIncreasing(values: seq<JsNum>, i: nat, j: nat)
    requires i < |values| && j < |values|
    requires values[i].Num? && values[j].Num? && values[i].x < values[j].x
    ensures ConvertTemperature(values, "F")[i].x < ConvertTemperature(values, "F")[j].x
    ensures ConvertRainfall(values, "in")[i].x < ConvertRainfall(values, "in")[j].x
    ensures ConvertWindSpeed(values, "kmh")[i].x < ConvertWindSpeed(values, "kmh")[j].x
    ensures ConvertWindSpeed(values, "mph")[i].x < ConvertWindSpeed(values, "mph")[j].x
  {
  }

  /**
   * The wind converter spells kilometres per hour `"kmh"`; the label
   * `"km/h"` used everywhere else in the dashboard falls through to the
   * identity.
   */
  lemma WindSpeedKmhLabel(values: seq<JsNum>)
    ensures forall i :: 0 <= i < |values| && values[i].Num? ==>
      ConvertWindSpeed(values, "km/h")[i] == values[i]
    ensures forall i :: 0 <= i < |values| && values[i].Num? ==>
      ConvertWindSpeed(values, "kmh")[i] == Num(values[i].x * 3.6)
  {
  }
}
