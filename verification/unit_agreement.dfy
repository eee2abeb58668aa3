/**
 * How the three unit converters of the project relate: the fetcher's
 * `convertValue` (base unit to display unit), the dashboard's
 * `convertToBase` (threshold unit back to base unit) and the list
 * converters of `src/utils/unitConverstions.js`. Fahrenheit, inches and
 * km/h are exact inverses between the fetcher and the dashboard; the
 * three miles-per-hour factors and the two inch factors are not.
 */
module UnitAgreement {
  import opened Wrappers
  import opened JsValues
  import WeatherFetch
  import Dashboard
  import UnitConversions

  /** Fahrenheit out and back in, in both orders, gives the value back. */
  lemma FahrenheitRoundTrip(x: real)
    ensures Dashboard.ConvertToBase("Temperature", WeatherFetch.ConvertValue("Temperature", Num(x), "F"), Some("°F")) == Num(x)
    ensures WeatherFetch.ConvertValue("Temperature", Dashboard.ConvertToBase("Temperature", Num(x), Some("°F")), "F") == Num(x)
  {
  }

  /** Inches out and back in, in both orders, gives the value back. */
  lemma InchesRoundTrip(x: real)
    ensures Dashboard.ConvertToBase("Rainfall", WeatherFetch.ConvertValue("Rainfall", Num(x), "in"), Some("in")) == Num(x)
    ensures WeatherFetch.ConvertValue("Rainfall", Dashboard.ConvertToBase("Rainfall", Num(x), Some("in")), "in") == Num(x)
  {
  }

  /** Kilometres per hour out and back in, in both orders, gives the value back. */
  lemma KmhRoundTrip(x: real)
    ensures Dashboard.ConvertToBase("Wind Speed", WeatherFetch.ConvertValue("Wind Speed", Num(x), "km/h"), Some("km/h")) == Num(x)
    ensures WeatherFetch.ConvertValue("Wind Speed", Dashboard.ConvertToBase("Wind Speed", Num(x), Some("km/h")), "km/h") == Num(x)
  {
  }

  /**
   * The fetcher multiplies by 2.237 for mph and the dashboard by 0.44704 to
   * come back: the product is 1.00002848, so every non-zero speed drifts.
   */
  lemma MphNotInverse(x: real)
    requires x != 0.0
    ensures Dashboard.ConvertToBase("Wind Speed", WeatherFetch.ConvertValue("Wind Speed", Num(x), "mph"), Some("mph"))
      == Num(x * 1.00002848)
    ensures Dashboard.ConvertToBase("Wind Speed", WeatherFetch.ConvertValue("Wind Speed", Num(x), "mph"), Some("mph"))
      != Num(x)
  {
  }

  /** The list converter uses yet another mph factor, 2.23694, also not the inverse of 0.44704. */
  lemma ListMphNotInverse(x: real)
    requires x != 0.0
    ensures Dashboard.ConvertToBase("Wind Speed", UnitConversions.ConvertWindSpeed([Num(x)], "mph")[0], Some("mph"))
      != Num(x)
  {
    assert UnitConversions.ConvertWindSpeed([Num(x)], "mph")[0] == Num(x * 2.23694);
  }

  /**
   * Fahrenheit: the list converter and the fetcher agree on every entry,
   * `null`, `undefined` and `NaN` included.
   */
  lemma TemperatureListAgrees(values: seq<JsNum>)
    ensures forall i :: 0 <= i < |values| ==>
      UnitConversions.ConvertTemperature(values, "F")[i] == WeatherFetch.ConvertValue("Temperature", values[i], "F")
  {
  }

  /** Wind: the list converter's `"kmh"` is the fetcher's `"km/h"`, entry by entry. */
  lemma WindListAgrees(values: seq<JsNum>)
    ensures forall i :: 0 <= i < |values| ==>
      UnitConversions.ConvertWindSpeed(values, "kmh")[i] == WeatherFetch.ConvertValue("Wind Speed", values[i], "km/h")
  {
  }

  /**
   * Rainfall: the list converter multiplies by 0.0393701 where the fetcher
   * divides by 25.4, so the two disagree on every non-zero amount; 25.4 mm
   * is 1 inch for the fetcher and 1.00000054 inches for the list converter.
   */
  lemma RainfallListDiffers(x: real)
    requires x != 0.0
    ensures UnitConversions.ConvertRainfall([Num(x)], "in")[0] != WeatherFetch.ConvertValue("Rainfall", Num(x), "in")
    ensures WeatherFetch.ConvertValue("Rainfall", Num(25.4), "in") == Num(1.0)
    ensures UnitConversions.ConvertRainfall([Num(25.4)], "in")[0] == Num(1.00000054)
  {
    assert UnitConversions.ConvertRainfall([Num(x)], "in")[0] == Num(x * 0.0393701);
    assert UnitConversions.ConvertRainfall([Num(25.4)], "in")[0] == Num(25.4 * 0.0393701);
  }
}
