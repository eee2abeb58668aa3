/**
 * The arithmetic of `src/utils/fetchAirQualityData.js`: aerosol optical
 * depth (AOD) to estimated PM2.5 and PM10 concentrations, and the EPA
 * piecewise-linear Air Quality Index for PM2.5 with the breakpoints of
 * 40 CFR Part 58, Appendix G, Table 2 (the PM2.5 rows in force before 2024).
 */
module AirQualityData {
  import opened Wrappers
  import opened JsValues

  /** `aodToPM25(aod)`: `null` for a falsy or NaN depth, otherwise 40 µg/m³ per unit of depth. */
  function AodToPm25(aod: JsNum): (r: JsNum)
    ensures r.Null? <==> !Truthy(aod)
    ensures r.Num? ==> r.x == 40.0 * aod.x && r.x != 0.0
    ensures r.Null? || r.Num?
  {
    if !Truthy(aod) then Null else Num(aod.x * 40.0)
  }

  /** `aodToPM10(aod)`: 1.7 times the PM2.5 estimate, `null` whenever that is. */
  function AodToPm10(aod: JsNum): (r: JsNum)
    ensures r.Null? <==> AodToPm25(aod).Null?
    ensures r.Num? ==> r.x == AodToPm25(aod).x * 1.7
  {
    if !Truthy(aod) then Null
    else
      var pm25 := AodToPm25(aod);
      if Truthy(pm25) then Num(pm25.x * 1.7) else Null
  }

  /** PM10 is 68 µg/m³ per unit of depth, above the PM2.5 estimate for every positive depth. */
  lemma Pm10Factor(aod: real)
    requires aod != 0.0
    ensures AodToPm10(Num(aod)) == Num(68.0 * aod)
    ensures aod > 0.0 ==> AodToPm10(Num(aod)).x > AodToPm25(Num(aod)).x
  {
  }

  /** One row of the breakpoint table: a concentration range and the index range it maps onto. */
  datatype Band = Band(low: real, high: real, aqiLow: int, aqiHigh: int)

  /** The PM2.5 breakpoints (24-hour average, µg/m³). */
  const Breakpoints: seq<Band> := [
    Band(0.0, 12.0, 0, 50),
    Band(12.1, 35.4, 51, 100),
    Band(35.5, 55.4, 101, 150),
    Band(55.5, 150.4, 151, 200),
    Band(150.5, 250.4, 201, 300),
    Band(250.5, 500.4, 301, 500)
  ]

  predicate WellFormed(b: Band) {
    b.low < b.high && b.aqiLow < b.aqiHigh
  }

  /**
   * The table is well formed: each band is a proper range onto a proper
   * index range, the bands are in increasing order and disjoint, the index
   * ranges are contiguous integers from 0 to 500, and the concentrations
   * start at 0.
   */
  lemma BreakpointsWellFormed()
    ensures |Breakpoints| == 6
    ensures forall i :: 0 <= i < |Breakpoints| ==> WellFormed(Breakpoints[i])
    ensures forall i, j :: 0 <= i < j < |Breakpoints| ==> Breakpoints[i].high < Breakpoints[j].low
    ensures forall i :: 0 <= i < |Breakpoints| - 1 ==> Breakpoints[i + 1].aqiLow == Breakpoints[i].aqiHigh + 1
    ensures Breakpoints[0].low == 0.0 && Breakpoints[0].aqiLow == 0
    ensures Breakpoints[5].high == 500.4 && Breakpoints[5].aqiHigh == 500
  {
  }

  /** The first band whose closed range holds `x`; with disjoint bands, the only one. */
  function FindBand(bands: seq<Band>, x: real): (r: Option<nat>)
    ensures r.Some? ==> r.value < |bands| && bands[r.value].low <= x <= bands[r.value].high
    ensures r.Some? ==> forall j :: 0 <= j < r.value ==> !(bands[j].low <= x <= bands[j].high)
    ensures r.None? <==> forall j :: 0 <= j < |bands| ==> !(bands[j].low <= x <= bands[j].high)
  {
    if |bands| == 0 then None
    else if bands[0].low <= x <= bands[0].high then Some(0)
    else match FindBand(bands[1..], x)
      case None => None
      case Some(k) => Some(k + 1)
  }

  /** The slope-times-offset term of the equation, kept apart so the division is named once. */
  function Interpolate(b: Band, x: real): (r: real)
    requires WellFormed(b)
    ensures x == b.low ==> r == b.aqiLow as real
    ensures x == b.high ==> r == b.aqiHigh as real
  {
    var s := (b.aqiHigh - b.aqiLow) as real / (b.high - b.low);
    assert s * (b.high - b.low) == (b.aqiHigh - b.aqiLow) as real;
    s * (x - b.low) + b.aqiLow as real
  }

  /** Inside its band the interpolation stays within the band's index range. */
  lemma InterpolateBounds(b: Band, x: real)
    requires WellFormed(b) && b.low <= x <= b.high
    ensures b.aqiLow as real <= Interpolate(b, x) <= b.aqiHigh as real
  {
    var s := (b.aqiHigh - b.aqiLow) as real / (b.high - b.low);
    assert s * (b.high - b.low) == (b.aqiHigh - b.aqiLow) as real;
    FactorNonNegative(s, b.high - b.low);
    MulNonNegative(s, x - b.low);
    MulNonNegative(s, b.high - x);
    assert s * (x - b.low) + s * (b.high - x) == s * (b.high - b.low);
  }

  /** The interpolation is non-decreasing: every band's slope is positive. */
  lemma InterpolateMonotone(b: Band, x: real, y: real)
    requires WellFormed(b) && x <= y
    ensures Interpolate(b, x) <= Interpolate(b, y)
  {
    var s := (b.aqiHigh - b.aqiLow) as real / (b.high - b.low);
    assert s * (b.high - b.low) == (b.aqiHigh - b.aqiLow) as real;
    FactorNonNegative(s, b.high - b.low);
    MulNonNegative(s, y - x);
    assert s * (y - b.low) - s * (x - b.low) == s * (y - x);
  }

  /** A band's endpoints interpolate exactly to its index bounds. */
  lemma InterpolateEndpoints(b: Band)
    requires WellFormed(b)
    ensures Interpolate(b, b.low) == b.aqiLow as real
    ensures Interpolate(b, b.high) == b.aqiHigh as real
  {
    var s := (b.aqiHigh - b.aqiLow) as real / (b.high - b.low);
    assert s * (b.high - b.low) == (b.aqiHigh - b.aqiLow) as real;
  }

  /** `Math.round` of the interpolation: an integer in the band's index range. */
  function BandAqi(b: Band, x: real): (a: int)
    requires WellFormed(b) && b.low <= x <= b.high
    ensures b.aqiLow <= a <= b.aqiHigh
  {
    InterpolateBounds(b, x);
    RoundMonotone(b.aqiLow as real, Interpolate(b, x));
    RoundMonotone(Interpolate(b, x), b.aqiHigh as real);
    RoundOfInt(b.aqiLow);
    RoundOfInt(b.aqiHigh);
    Round(Interpolate(b, x))
  }

  /**
   * `calculateAQI(pm25)`: `null` for a falsy or NaN concentration; inside a
   * band, the rounded interpolation; outside every band, 500 above the
   * table and 0 otherwise (below it, or in a gap between two bands).
   */
  function CalculateAqi(pm25: JsNum): (r: Option<int>)
    ensures r.None? <==> !Truthy(pm25)
    ensures r.Some? ==> 0 <= r.value <= 500
  {
    if !Truthy(pm25) then None
    else
      var x := pm25.x;
      BreakpointsWellFormed();
      match FindBand(Breakpoints, x)
      case Some(i) => Some(BandAqi(Breakpoints[i], x))
      case None => Some(if x > 500.4 then 500 else 0)
  }

  /** A concentration inside band i is the only band that holds it. */
  lemma FindBandOf(i: nat, x: real)
    requires i < |Breakpoints| && Breakpoints[i].low <= x <= Breakpoints[i].high
    ensures FindBand(Breakpoints, x) == Some(i)
  {
    BreakpointsWellFormed();
  }

  /** Inside band i the index lies in that band's index range. */
  lemma AqiInBand(i: nat, x: real)
    requires i < |Breakpoints| && Breakpoints[i].low <= x <= Breakpoints[i].high && x != 0.0
    ensures CalculateAqi(Num(x)).Some?
    ensures Breakpoints[i].aqiLow <= CalculateAqi(Num(x)).value <= Breakpoints[i].aqiHigh
  {
    FindBandOf(i, x);
  }

  /** Band endpoints map exactly onto the index bounds (0 itself is falsy and gives `null`). */
  lemma AqiAtEndpoints(i: nat)
    requires i < |Breakpoints|
    ensures CalculateAqi(Num(Breakpoints[i].high)) == Some(Breakpoints[i].aqiHigh)
    ensures i > 0 ==> CalculateAqi(Num(Breakpoints[i].low)) == Some(Breakpoints[i].aqiLow)
    ensures CalculateAqi(Num(0.0)).None?
  {
    AqiAtHigh(i);
    if i > 0 {
      AqiAtLow(i);
    }
  }

  /** The upper end of band i gives that band's upper index. */
  lemma AqiAtHigh(i: nat)
    requires i < |Breakpoints|
    ensures CalculateAqi(Num(Breakpoints[i].high)) == Some(Breakpoints[i].aqiHigh)
  {
    BreakpointsWellFormed();
    var b := Breakpoints[i];
    FindBandOf(i, b.high);
    InterpolateEndpoints(b);
    RoundOfInt(b.aqiHigh);
    assert BandAqi(b, b.high) == b.aqiHigh;
  }

  /** The lower end of band i (past the first) gives that band's lower index. */
  lemma AqiAtLow(i: nat)
    requires 0 < i < |Breakpoints|
    ensures CalculateAqi(Num(Breakpoints[i].low)) == Some(Breakpoints[i].aqiLow)
  {
    BreakpointsWellFormed();
    var b := Breakpoints[i];
    FindBandOf(i, b.low);
    InterpolateEndpoints(b);
    RoundOfInt(b.aqiLow);
    assert BandAqi(b, b.low) == b.aqiLow;
  }

  /** Within one band a higher concentration never gives a lower index. */
  lemma AqiMonotoneInBand(i: nat, x: real, y: real)
    requires i < |Breakpoints| && Breakpoints[i].low <= x <= y <= Breakpoints[i].high && x != 0.0
    ensures CalculateAqi(Num(x)).Some? && CalculateAqi(Num(y)).Some?
    ensures CalculateAqi(Num(x)).value <= CalculateAqi(Num(y)).value
  {
    BreakpointsWellFormed();
    FindBandOf(i, x);
    FindBandOf(i, y);
    InterpolateMonotone(Breakpoints[i], x, y);
    RoundMonotone(Interpolate(Breakpoints[i], x), Interpolate(Breakpoints[i], y));
  }

  /** Above the table the index saturates at 500; a negative concentration gives 0. */
  lemma AqiOutsideTable(x: real)
    ensures x > 500.4 ==> CalculateAqi(Num(x)) == Some(500)
    ensures x < 0.0 ==> CalculateAqi(Num(x)) == Some(0)
  {
    BreakpointsWellFormed();
  }

  /** A concentration in the gap between two bands (e.g. 12.05) gives 0, not a value between 50 and 51. */
  lemma AqiInGap(i: nat, x: real)
    requires i + 1 < |Breakpoints| && Breakpoints[i].high < x < Breakpoints[i + 1].low
    ensures CalculateAqi(Num(x)) == Some(0)
  {
    BreakpointsWellFormed();
  }

  /** The gap example: 12.05 µg/m³ lies between the first two bands. */
  lemma AqiGapExample()
    ensures CalculateAqi(Num(12.05)) == Some(0)
  {
    AqiInGap(0, 12.05);
  }
}
