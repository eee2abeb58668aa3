/**
 * The classification tables of the air-quality page `src/pages/AirQuality.js`:
 * the six EPA categories, their index ranges and colours, the category of an
 * index, and the icon and health advice shown for a category key.
 */
module AirQualityPage {
  import opened Wrappers
  import opened JsValues
  import AirQualityData

  datatype Category = Good | Moderate | UnhealthySensitive | Unhealthy | VeryUnhealthy | Hazardous

  /** The six categories, mildest first, in the order the legend lists them. */
  const Categories: seq<Category> := [Good, Moderate, UnhealthySensitive, Unhealthy, VeryUnhealthy, Hazardous]

  /** The object key the page uses for a category. */
  function Key(c: Category): (k: string)
    ensures |k| > 0
  {
    match c
    case Good => "good"
    case Moderate => "moderate"
    case UnhealthySensitive => "unhealthySensitive"
    case Unhealthy => "unhealthy"
    case VeryUnhealthy => "veryUnhealthy"
    case Hazardous => "hazardous"
  }

  /** Reads a key back; any other string names no category. */
  function ParseKey(k: string): (r: Option<Category>)
    ensures r.Some? ==> Key(r.value) == k
  {
    match k
    case "good" => Some(Good)
    case "moderate" => Some(Moderate)
    case "unhealthySensitive" => Some(UnhealthySensitive)
    case "unhealthy" => Some(Unhealthy)
    case "veryUnhealthy" => Some(VeryUnhealthy)
    case "hazardous" => Some(Hazardous)
    case _ => None
  }

  /** Keys and categories correspond one to one. */
  lemma KeyRoundTrip(c: Category, k: string)
    ensures ParseKey(Key(c)) == Some(c)
    ensures ParseKey(k).None? <==> forall d :: Key(d) != k
  {
    if ParseKey(k).None? {
      forall d: Category ensures Key(d) != k {
        assert ParseKey(Key(d)) == Some(d);
      }
    }
  }

  /** The position of a category in `Categories`: 0 for good up to 5 for hazardous. */
  function Severity(c: Category): (n: nat)
    ensures n < |Categories| && Categories[n] == c
  {
    match c
    case Good => 0
    case Moderate => 1
    case UnhealthySensitive => 2
    case Unhealthy => 3
    case VeryUnhealthy => 4
    case Hazardous => 5
  }

  /** One `AQI_RANGES` entry. */
  datatype AqiRange = AqiRange(min: int, max: int)

  /** `AQI_RANGES`. */
  const AqiRanges: map<string, AqiRange> := map[
    "good" := AqiRange(0, 50),
    "moderate" := AqiRange(51, 100),
    "unhealthySensitive" := AqiRange(101, 150),
    "unhealthy" := AqiRange(151, 200),
    "veryUnhealthy" := AqiRange(201, 300),
    "hazardous" := AqiRange(301, 500)
  ]

  /** One `AQI_COLORS` entry (`title` is the entry's `label`). */
  datatype ColorInfo = ColorInfo(color: string, bg: string, text: string, title: string)

  /** `AQI_COLORS`. */
  const AqiColors: map<string, ColorInfo> := map[
    "good" := ColorInfo("#00E400", "#00E400", "#000000", "Good"),
    "moderate" := ColorInfo("#FFFF00", "#FFFF00", "#000000", "Moderate"),
    "unhealthySensitive" := ColorInfo("#FF7E00", "#FF7E00", "#FFFFFF", "Unhealthy for Sensitive Groups"),
    "unhealthy" := ColorInfo("#FF0000", "#FF0000", "#FFFFFF", "Unhealthy"),
    "veryUnhealthy" := ColorInfo("#8F3F97", "#8F3F97", "#FFFFFF", "Very Unhealthy"),
    "hazardous" := ColorInfo("#7E0023", "#7E0023", "#FFFFFF", "Hazardous")
  ]

  /** Both tables have exactly the six category keys, so every legend row finds its range. */
  lemma TablesShareKeys()
    ensures AqiColors.Keys == AqiRanges.Keys
    ensures forall k :: k in AqiRanges <==> exists c :: Key(c) == k
  {
    forall k | k in AqiRanges
      ensures exists c :: Key(c) == k
    {
      assert Key(ParseKey(k).value) == k;
    }
  }

  /**
   * The ranges tile the integers 0 to 500 in category order: the first
   * starts at 0, the last ends at 500, each starts one after the previous
   * one ends, and none is empty.
   */
  lemma RangesContiguous()
    ensures AqiRanges[Key(Categories[0])].min == 0
    ensures AqiRanges[Key(Categories[5])].max == 500
    ensures forall i :: 0 <= i < 5 ==>
      AqiRanges[Key(Categories[i + 1])].min == AqiRanges[Key(Categories[i])].max + 1
    ensures forall c :: AqiRanges[Key(c)].min <= AqiRanges[Key(c)].max
  {
  }

  /**
   * `getAQICategory(aqi)`: the first inclusive upper bound that `aqi` does
   * not exceed, with JavaScript's `<=`; `null` compares as 0 and so is
   * good, while NaN and `undefined` fail every test and are hazardous.
   */
  function GetAqiCategory(aqi: JsNum): (c: Category)
    ensures c == Good <==> Le(aqi, Num(50.0))
    ensures c == Hazardous <==> !Le(aqi, Num(300.0))
  {
    if Le(aqi, Num(50.0)) then Good
    else if Le(aqi, Num(100.0)) then Moderate
    else if Le(aqi, Num(150.0)) then UnhealthySensitive
    else if Le(aqi, Num(200.0)) then Unhealthy
    else if Le(aqi, Num(300.0)) then VeryUnhealthy
    else Hazardous
  }

  /** The category of a number by its band, each upper bound inclusive. */
  lemma CategoryBands(x: real)
    ensures GetAqiCategory(Num(x)) == Good <==> x <= 50.0
    ensures GetAqiCategory(Num(x)) == Moderate <==> 50.0 < x <= 100.0
    ensures GetAqiCategory(Num(x)) == UnhealthySensitive <==> 100.0 < x <= 150.0
    ensures GetAqiCategory(Num(x)) == Unhealthy <==> 150.0 < x <= 200.0
    ensures GetAqiCategory(Num(x)) == VeryUnhealthy <==> 200.0 < x <= 300.0
    ensures GetAqiCategory(Num(x)) == Hazardous <==> x > 300.0
  {
  }

  /** What the non-numbers classify as. */
  lemma CategoryOfNonNumbers()
    ensures GetAqiCategory(Null) == Good
    ensures GetAqiCategory(Undefined) == Hazardous
    ensures GetAqiCategory(NaN) == Hazardous
  {
  }

  /** A higher index never gives a milder category. */
  lemma CategoryMonotone(x: real, y: real)
    requires x <= y
    ensures Severity(GetAqiCategory(Num(x))) <= Severity(GetAqiCategory(Num(y)))
  {
  }

  /** On the integers 0 to 500 the function and the range table say the same thing. */
  lemma CategoryMatchesRanges(n: int, c: Category)
    requires 0 <= n <= 500
    ensures GetAqiCategory(Num(n as real)) == c <==> AqiRanges[Key(c)].min <= n <= AqiRanges[Key(c)].max
  {
  }

  /**
   * An index computed from a PM2.5 concentration in breakpoint band i falls
   * in category i: the breakpoint table and the page's categories line up.
   */
  lemma BandCategory(i: nat, x: real)
    requires i < |AirQualityData.Breakpoints|
    requires AirQualityData.Breakpoints[i].low <= x <= AirQualityData.Breakpoints[i].high && x != 0.0
    ensures AirQualityData.CalculateAqi(Num(x)).Some?
    ensures GetAqiCategory(Num(AirQualityData.CalculateAqi(Num(x)).value as real)) == Categories[i]
  {
    AirQualityData.AqiInBand(i, x);
  }

  /** The page's category and colour entry for the loaded reading, if any. */
  function PageCategory(aqi: Option<JsNum>): (r: Option<(Category, ColorInfo)>)
    ensures r.Some? <==> aqi.Some?
    ensures r.Some? ==> r.value.1 == AqiColors[Key(r.value.0)]
  {
    match aqi
    case None => None
    case Some(a) =>
      var c := GetAqiCategory(a);
      Some((c, AqiColors[Key(c)]))
  }

  /** The icon `getAQIIcon` renders: a glyph and its colour class. */
  datatype Icon = Icon(glyph: string, colorClass: string)

  const DefaultIcon: Icon := Icon("FaInfoCircle", "text-gray-500")

  /** `getAQIIcon(category)`. */
  function GetAqiIcon(key: string): (icon: Icon)
    ensures ParseKey(key).None? ==> icon == DefaultIcon
  {
    match key
    case "good" => Icon("FaCheckCircle", "text-green-500")
    case "moderate" => Icon("FaInfoCircle", "text-yellow-500")
    case "unhealthySensitive" => Icon("FaExclamationTriangle", "text-orange-500")
    case "unhealthy" => Icon("FaExclamationTriangle", "text-red-500")
    case "veryUnhealthy" => Icon("FaTimesCircle", "text-purple-500")
    case "hazardous" => Icon("FaTimesCircle", "text-red-800")
    case _ => DefaultIcon
  }

  /** The six texts `getHealthRecommendation` can return, and its fallback. */
  datatype Advice = Satisfactory | Acceptable | SensitiveGroups | GeneralPublic | HealthAlert | EmergencyWarning | NoAdvice

  /** The text shown for each advice. */
  function AdviceText(a: Advice): string {
    match a
    case Satisfactory => "Air quality is satisfactory, and air pollution poses little or no risk."
    case Acceptable => "Air quality is acceptable. However, there may be a risk for some people, particularly those who are unusually sensitive to air pollution."
    case SensitiveGroups => "Members of sensitive groups may experience health effects. The general public is less likely to be affected."
    case GeneralPublic => "Some members of the general public may experience health effects; members of sensitive groups may experience more serious health effects."
    case HealthAlert => "Health alert: The risk of health effects is increased for everyone."
    case EmergencyWarning => "Health warning of emergency conditions: everyone is more likely to be affected."
    case NoAdvice => "No health recommendations available."
  }

  /** `getHealthRecommendation(category)`: which text is shown, `AdviceText` of the result. */
  function GetHealthRecommendation(key: string): (advice: Advice)
    ensures advice == NoAdvice <==> ParseKey(key).None?
  {
    match key
    case "good" => Satisfactory
    case "moderate" => Acceptable
    case "unhealthySensitive" => SensitiveGroups
    case "unhealthy" => GeneralPublic
    case "veryUnhealthy" => HealthAlert
    case "hazardous" => EmergencyWarning
    case _ => NoAdvice
  }

  /**
   * Every category has its own icon, none of them the fallback; the fallback
   * is used exactly for strings that name no category.
   */
  lemma IconCases(c: Category, d: Category, k: string)
    ensures GetAqiIcon(Key(c)) != DefaultIcon
    ensures c != d ==> GetAqiIcon(Key(c)) != GetAqiIcon(Key(d))
    ensures GetAqiIcon(k) == DefaultIcon <==> ParseKey(k).None?
  {
  }

  /**
   * Every category has its own advice, none of it the fallback; the
   * fallback is used exactly for strings that name no category.
   */
  lemma AdviceCases(c: Category, d: Category, k: string)
    ensures GetHealthRecommendation(Key(c)) != NoAdvice
    ensures c != d ==> GetHealthRecommendation(Key(c)) != GetHealthRecommendation(Key(d))
    ensures GetHealthRecommendation(k) == NoAdvice <==> ParseKey(k).None?
  {
  }
}
