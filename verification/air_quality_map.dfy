/**
 * The decisions of the map component `src/components/AirQualityMap.js`:
 * the marker colour for an index, the clamp applied to a simulated grid
 * index, and the default map centre.
 */
module AirQualityMap {
  import opened Wrappers
  import opened JsValues
  import AirQualityPage

  /** The map's own colour table, one hex colour per category key. */
  const MapColors: map<string, string> := map[
    "good" := "#00E400",
    "moderate" := "#FFFF00",
    "unhealthySensitive" := "#FF7E00",
    "unhealthy" := "#FF0000",
    "veryUnhealthy" := "#8F3F97",
    "hazardous" := "#7E0023"
  ]

  /** The map's colour table is the page's `color` column, key for key. */
  lemma MapColorsMatchPage()
    ensures MapColors.Keys == AirQualityPage.AqiColors.Keys
    ensures forall k :: k in MapColors ==> MapColors[k] == AirQualityPage.AqiColors[k].color
  {
  }

  /**
   * The colour `createAQIMarkerIcon(aqi)` paints: the first strict lower
   * bound `aqi` exceeds, from the top, with JavaScript's `>`; anything that
   * exceeds none of them (including `null`, `undefined` and NaN) is good.
   */
  function MarkerColor(aqi: JsNum): (color: string)
    ensures color in MapColors.Values
    ensures color == MapColors["hazardous"] <==> Gt(aqi, Num(300.0))
    ensures color == MapColors["good"] <==> !Gt(aqi, Num(50.0))
  {
    if Gt(aqi, Num(300.0)) then MapColors["hazardous"]
    else if Gt(aqi, Num(200.0)) then MapColors["veryUnhealthy"]
    else if Gt(aqi, Num(150.0)) then MapColors["unhealthy"]
    else if Gt(aqi, Num(100.0)) then MapColors["unhealthySensitive"]
    else if Gt(aqi, Num(50.0)) then MapColors["moderate"]
    else MapColors["good"]
  }

  /**
   * For every number and for `null` the marker has the colour the page
   * gives the category of the same index: the strict lower bounds of the
   * map are the inclusive upper bounds of the page.
   */
  lemma MarkerMatchesPage(aqi: JsNum)
    requires aqi.Num? || aqi.Null?
    ensures MarkerColor(aqi) == AirQualityPage.AqiColors[AirQualityPage.Key(AirQualityPage.GetAqiCategory(aqi))].color
  {
  }

  /**
   * NaN and `undefined` are where the two files part: every `>` test fails,
   * so the marker is good, while every `<=` test fails on the page too,
   * which makes it hazardous.
   */
  lemma MarkerDivergesOnNaN(aqi: JsNum)
    requires aqi.NaN? || aqi.Undefined?
    ensures MarkerColor(aqi) == MapColors["good"]
    ensures AirQualityPage.GetAqiCategory(aqi) == AirQualityPage.Hazardous
    ensures MarkerColor(aqi) != AirQualityPage.AqiColors[AirQualityPage.Key(AirQualityPage.GetAqiCategory(aqi))].color
  {
  }

  /**
   * The rank of a map colour: 0 for good up to 5 for hazardous, in the
   * order of the category table; a colour not in the table ranks as good.
   */
  function ColorRank(color: string): (rank: nat)
    ensures rank <= 5
    ensures color == MapColors["hazardous"] <==> rank == 5
  {
    if color == MapColors["hazardous"] then 5
    else if color == MapColors["veryUnhealthy"] then 4
    else if color == MapColors["unhealthy"] then 3
    else if color == MapColors["unhealthySensitive"] then 2
    else if color == MapColors["moderate"] then 1
    else 0
  }

  /** For every number the marker colour's rank is the page category's severity. */
  lemma MarkerRankIsSeverity(x: real)
    ensures ColorRank(MarkerColor(Num(x))) == AirQualityPage.Severity(AirQualityPage.GetAqiCategory(Num(x)))
  {
  }

  /**
   * A higher index never gets the colour of a milder category: the marker
   * colour's rank does not fall as the index grows, and at both indices the
   * marker shows the page's colour for that index's category.
   */
  lemma MarkerMonotone(x: real, y: real)
    requires x <= y
    ensures ColorRank(MarkerColor(Num(x))) <= ColorRank(MarkerColor(Num(y)))
    ensures AirQualityPage.Severity(AirQualityPage.GetAqiCategory(Num(x))) <= AirQualityPage.Severity(AirQualityPage.GetAqiCategory(Num(y)))
    ensures MarkerColor(Num(x)) == AirQualityPage.AqiColors[AirQualityPage.Key(AirQualityPage.GetAqiCategory(Num(x)))].color
    ensures MarkerColor(Num(y)) == AirQualityPage.AqiColors[AirQualityPage.Key(AirQualityPage.GetAqiCategory(Num(y)))].color
  {
    AirQualityPage.CategoryMonotone(x, y);
    MarkerRankIsSeverity(x);
    MarkerRankIsSeverity(y);
    MarkerMatchesPage(Num(x));
    MarkerMatchesPage(Num(y));
  }

  /**
   * The index of one grid point: `Math.max(0, Math.min(500, base + variation))`.
   * The base is the loaded reading's index, which may be `null` (counted as
   * 0 by `+`) or `undefined` (giving NaN, which both `Math.min` and
   * `Math.max` pass through); the random variation is a parameter.
   */
  function SimulatedAqi(base: JsNum, variation: real): (r: JsNum)
    ensures r.Num? || r.NaN?
    ensures r.NaN? <==> ToNumeric(base).NaN?
    ensures r.Num? ==> 0.0 <= r.x <= 500.0
  {
    match ToNumeric(base)
    case Num(b) => Num(Clamp(b + variation, 0.0, 500.0))
    case _ => NaN
  }

  /**
   * With the base inside the index range and the variation drawn from
   * [-25, 25), every grid point lies within 25 of the base; `null` acts as
   * a base of 0.
   */
  lemma SimulatedNearBase(base: real, variation: real)
    requires 0.0 <= base <= 500.0 && -25.0 <= variation < 25.0
    ensures SimulatedAqi(Num(base), variation).Num?
    ensures -25.0 <= SimulatedAqi(Num(base), variation).x - base < 25.0
    ensures SimulatedAqi(Null, variation) == SimulatedAqi(Num(0.0), variation)
  {
  }

  /** A selected location; either coordinate may be missing (`null` or `undefined`). */
  datatype Location = Location(lat: Option<real>, lon: Option<real>)

  const DefaultCenter: (real, real) := (12.0, 8.5)

  /** `[location?.lat ?? 12.0, location?.lon ?? 8.5]`: each coordinate falls back on its own. */
  function MapCenter(location: Option<Location>): (center: (real, real))
    ensures location.Some? && location.value.lat.Some? ==> center.0 == location.value.lat.value
    ensures location.Some? && location.value.lon.Some? ==> center.1 == location.value.lon.value
    ensures (location.None? || location.value.lat.None?) ==> center.0 == DefaultCenter.0
    ensures (location.None? || location.value.lon.None?) ==> center.1 == DefaultCenter.1
  {
    match location
    case None => DefaultCenter
    case Some(l) => (l.lat.GetOr(DefaultCenter.0), l.lon.GetOr(DefaultCenter.1))
  }
}
