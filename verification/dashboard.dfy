/**
 * The data logic of the dashboard page `src/pages/Dashboard.js`: threshold
 * entries and their conversion to the service's base units, the page's own
 * copies of the exceedance probability and of the "most likely" mean, and
 * the result rows a fetch produces.
 */
module Dashboard {
  import opened Wrappers
  import opened JsValues
  import opened Decimal
  import opened HistoricalDates
  import Probability
  import WeatherFetch

  /** `unitOptions`: the units each variable's threshold may be entered in, base unit first. */
  const UnitOptions: map<string, seq<string>> := map[
    "Temperature" := ["°C", "°F"],
    "Rainfall" := ["mm", "in"],
    "Wind Speed" := ["m/s", "km/h", "mph"],
    "Humidity" := ["%"],
    "Dust Concentration" := ["AOD"]
  ]

  /**
   * `convertToBase(variable, value, unit)`: a threshold entered in `unit`,
   * expressed in the unit the weather service reports. `null`, `undefined`
   * and `NaN` are handed back unchanged, and so is any value whose unit is
   * already the base unit or unknown.
   */
  function ConvertToBase(variable: string, value: JsNum, unit: Option<string>): (r: JsNum)
    ensures !value.Num? ==> r == value
    ensures value.Num? ==> r.Num?
    ensures variable !in {"Temperature", "Rainfall", "Wind Speed"} ==> r == value
    ensures unit.None? ==> r == value
  {
    if !value.Num? then value
    else match variable
      case "Temperature" =>
        if unit == Some("°F") then Num((value.x - 32.0) * 5.0 / 9.0) else value
      case "Rainfall" =>
        if unit == Some("in") then Num(value.x * 25.4) else value
      case "Wind Speed" =>
        if unit == Some("km/h") then Num(value.x / 3.6)
        else if unit == Some("mph") then Num(value.x * 0.44704)
        else value
      case _ => value
  }

  /** The first option of every variable is its base unit: converting from it changes nothing. */
  lemma BaseOptionIsIdentity(variable: string, value: JsNum)
    requires variable in UnitOptions
    ensures ConvertToBase(variable, value, Some(UnitOptions[variable][0])) == value
  {
  }

  /** Every offered unit converts by a strictly increasing map: the order of thresholds is kept. */
  lemma ConvertToBaseStrictlyIncreasing(variable: string, unit: string, x: real, y: real)
    requires variable in UnitOptions && unit in UnitOptions[variable] && x < y
    ensures ConvertToBase(variable, Num(x), Some(unit)).x < ConvertToBase(variable, Num(y), Some(unit)).x
  {
  }

  /**
   * The page's `calcProbability(values, thresholdValue)`: the percentage of
   * the numeric samples strictly above the threshold, 0 when there are none.
   */
  function CalcProbability(values: seq<JsNum>, threshold: JsNum): (r: real)
    ensures 0.0 <= r <= 100.0
    ensures |Probability.Clean(values)| == 0 ==> r == 0.0
  {
    var clean := Probability.Clean(values);
    if |clean| == 0 then 0.0
    else Probability.Percentage(Probability.CountAbove(clean, threshold), |clean|)
  }

  /** The page's copy agrees with the absolute-threshold case of the shared utility. */
  lemma CalcProbabilityAgrees(values: seq<JsNum>, threshold: JsNum)
    ensures CalcProbability(values, threshold)
      == Probability.CalcProbability(values, Probability.Threshold(Probability.Absolute, threshold))
  {
  }

  /** A higher threshold never gives a higher probability. */
  lemma CalcProbabilityAntitone(values: seq<JsNum>, t1: real, t2: real)
    requires t1 <= t2
    ensures CalcProbability(values, Num(t2)) <= CalcProbability(values, Num(t1))
  {
    CalcProbabilityAgrees(values, Num(t1));
    CalcProbabilityAgrees(values, Num(t2));
    Probability.AbsoluteAntitone(values, t1, t2);
  }

  /**
   * `clean.reduce((a, b) => a + b, 0)`: the sum, added left to right from
   * the initial value 0. `SumBounds` bounds it by its terms.
   */
  function Sum(s: seq<real>): (r: real)
    ensures |s| == 0 ==> r == 0.0
  {
    if |s| == 0 then 0.0 else Sum(s[..|s| - 1]) + s[|s| - 1]
  }

  /** A sum of `n` terms that lie in `[lo, hi]` lies in `[n * lo, n * hi]`. */
  lemma {:induction false} SumBounds(s: seq<real>, lo: real, hi: real)
    requires forall k :: 0 <= k < |s| ==> lo <= s[k] <= hi
    ensures |s| as real * lo <= Sum(s) <= |s| as real * hi
  {
    if |s| > 0 {
      var p := s[..|s| - 1];
      assert forall k :: 0 <= k < |p| ==> p[k] == s[k];
      SumBounds(p, lo, hi);
      StepBounds(|p|, Sum(p), s[|s| - 1], lo, hi);
      assert Sum(s) == Sum(p) + s[|s| - 1];
      assert |s| == |p| + 1;
    } else {
      assert Sum(s) == 0.0 && |s| as real == 0.0;
    }
  }

  /** One more term in `[lo, hi]` moves both bounds by one step. */
  lemma StepBounds(count: nat, sum: real, x: real, lo: real, hi: real)
    requires count as real * lo <= sum <= count as real * hi && lo <= x <= hi
    ensures (count + 1) as real * lo <= sum + x <= (count + 1) as real * hi
  {
    var n := count as real;
    assert (count + 1) as real == n + 1.0;
    assert (n + 1.0) * lo == n * lo + lo;
    assert (n + 1.0) * hi == n * hi + hi;
  }

  /**
   * `calcMostLikely(values)`: the mean of the numeric samples, or `null`
   * when there are none.
   */
  function CalcMostLikely(values: seq<JsNum>): (r: JsNum)
    ensures r.Null? <==> |Probability.Clean(values)| == 0
    ensures r.Null? || r.Num?
  {
    var clean := Probability.Clean(values);
    if |clean| == 0 then Null else Num(Sum(clean) / |clean| as real)
  }

  /** The mean lies between any bounds of the numeric samples. */
  lemma MostLikelyWithin(values: seq<JsNum>, lo: real, hi: real)
    requires |Probability.Clean(values)| > 0
    requires forall x :: Num(x) in values ==> lo <= x <= hi
    ensures lo <= CalcMostLikely(values).x <= hi
  {
    var clean := Probability.Clean(values);
    CleanWithin(values, lo, hi);
    MeanWithin(clean, lo, hi);
    assert CalcMostLikely(values) == Num(Sum(clean) / |clean| as real);
  }

  lemma CleanWithin(values: seq<JsNum>, lo: real, hi: real)
    requires forall x :: Num(x) in values ==> lo <= x <= hi
    ensures forall k :: 0 <= k < |Probability.Clean(values)| ==> lo <= Probability.Clean(values)[k] <= hi
  {
    var clean := Probability.Clean(values);
    Probability.CleanMembers(values);
    forall k | 0 <= k < |clean|
      ensures lo <= clean[k] <= hi
    {
      assert clean[k] in clean;
    }
  }

  /** The mean of samples that lie in `[lo, hi]` lies in `[lo, hi]`. */
  lemma {:induction false} MeanWithin(s: seq<real>, lo: real, hi: real)
    requires |s| > 0
    requires forall k :: 0 <= k < |s| ==> lo <= s[k] <= hi
    ensures lo <= Sum(s) / |s| as real <= hi
  {
    SumBounds(s, lo, hi);
    MeanBetween(Sum(s), |s|, lo, hi);
  }

  /** Dividing bounds `n * lo <= sum <= n * hi` by `n`. */
  lemma MeanBetween(sum: real, count: nat, lo: real, hi: real)
    requires count > 0 && count as real * lo <= sum <= count as real * hi
    ensures lo <= sum / count as real <= hi
  {
    var n := count as real;
    var m := sum / n;
    assert m * n == sum;
  }

  /** When every sample has the same value, that value is the most likely one. */
  lemma MostLikelyOfConstant(values: seq<JsNum>, c: real)
    requires |Probability.Clean(values)| > 0
    requires forall x :: Num(x) in values ==> x == c
    ensures CalcMostLikely(values) == Num(c)
  {
    MostLikelyWithin(values, c, c);
  }

  /** A `null`, `undefined` or `NaN` sample, wherever it stands, does not move the mean. */
  lemma MostLikelyIgnoresNonNumbers(values: seq<JsNum>, i: nat, v: JsNum)
    requires i <= |values| && !v.Num?
    ensures CalcMostLikely(values[..i] + [v] + values[i..]) == CalcMostLikely(values)
  {
    Probability.CleanIgnoresNonNumber(values, i, v);
  }

  /** One threshold entry: `{ value, unit }`, either part possibly missing. */
  datatype ThresholdEntry = ThresholdEntry(value: JsNum, unit: Option<string>)

  type Thresholds = map<string, ThresholdEntry>

  /** The thresholds the page starts with. */
  const DefaultThresholds: Thresholds := map[
    "Temperature" := ThresholdEntry(Num(30.0), Some("°C")),
    "Rainfall" := ThresholdEntry(Num(10.0), Some("mm")),
    "Wind Speed" := ThresholdEntry(Num(5.0), Some("m/s")),
    "Humidity" := ThresholdEntry(Num(70.0), Some("%")),
    "Dust Concentration" := ThresholdEntry(Num(0.3), Some("AOD"))
  ]

  /** `convertToBase(v, thresholds[v]?.value, thresholds[v]?.unit)`. */
  function ThresholdBase(ts: Thresholds, variable: string): (r: JsNum)
    ensures variable !in ts ==> r == Undefined
    ensures variable in ts && ts[variable].value.Num? ==> r.Num?
  {
    if variable in ts then ConvertToBase(variable, ts[variable].value, ts[variable].unit)
    else ConvertToBase(variable, Undefined, None)
  }

  /** The default thresholds are entered in base units, so they are compared as they stand. */
  lemma DefaultThresholdsAreBase(variable: string)
    requires variable in DefaultThresholds
    ensures ThresholdBase(DefaultThresholds, variable) == DefaultThresholds[variable].value
  {
  }

  /** Every variable the page offers has a default threshold and unit options in which its unit is listed. */
  lemma DefaultsCoverOptions()
    ensures DefaultThresholds.Keys == UnitOptions.Keys
    ensures forall v :: v in DefaultThresholds ==>
      DefaultThresholds[v].unit.Some? && DefaultThresholds[v].unit.value == UnitOptions[v][0]
  {
  }

  /** `thresholds[v]?.value ?? 0`: what the number input shows. */
  function DisplayedValue(ts: Thresholds, variable: string): (r: JsNum)
    ensures !IsNullish(r)
    ensures variable !in ts ==> r == Num(0.0)
  {
    if variable in ts && !IsNullish(ts[variable].value) then ts[variable].value else Num(0.0)
  }

  /** The number input's `onChange`: `{ ...thresholds, [v]: { ...thresholds[v], value: Number(text) } }`. */
  function EditValue(ts: Thresholds, variable: string, text: string): (r: Thresholds)
    ensures r.Keys == ts.Keys + {variable}
    ensures forall w :: w in ts && w != variable ==> r[w] == ts[w]
    ensures r[variable].value == NumberOf(text)
    ensures r[variable].unit == if variable in ts then ts[variable].unit else None
  {
    ts[variable := ThresholdEntry(NumberOf(text), if variable in ts then ts[variable].unit else None)]
  }

  /** The unit select's `onChange`: `{ ...thresholds, [v]: { ...thresholds[v], unit } }`. */
  function EditUnit(ts: Thresholds, variable: string, unit: string): (r: Thresholds)
    ensures r.Keys == ts.Keys + {variable}
    ensures forall w :: w in ts && w != variable ==> r[w] == ts[w]
    ensures r[variable].unit == Some(unit)
    ensures r[variable].value == if variable in ts then ts[variable].value else Undefined
  {
    ts[variable := ThresholdEntry(if variable in ts then ts[variable].value else Undefined, Some(unit))]
  }

  /** The two inputs edit separate fields: their order does not matter. */
  lemma EditsCommute(ts: Thresholds, variable: string, text: string, unit: string)
    ensures EditUnit(EditValue(ts, variable, text), variable, unit)
      == EditValue(EditUnit(ts, variable, unit), variable, text)
  {
  }

  /** What the input shows after typing is what `Number` read; an empty field shows 0. */
  lemma EditValueShown(ts: Thresholds, variable: string, text: string)
    ensures DisplayedValue(EditValue(ts, variable, text), variable) == NumberOf(text)
    ensures DisplayedValue(EditValue(ts, variable, ""), variable) == Num(0.0)
  {
  }

  /** One entry of `probabilityData`. */
  datatype Row = Row(variable: string, probability: real, values: seq<JsNum>)

  /** `results[v] || []`. */
  function ResultsFor(results: map<string, seq<JsNum>>, variable: string): (s: seq<JsNum>)
    ensures variable !in results ==> s == []
  {
    if variable in results then results[variable] else []
  }

  /** `variables.map(...)`: one row per selected variable, in selection order. */
  function Rows(variables: seq<string>, ts: Thresholds, results: map<string, seq<JsNum>>): (rows: seq<Row>)
    ensures |rows| == |variables|
    ensures forall i :: 0 <= i < |variables| ==>
      rows[i].variable == variables[i]
      && rows[i].values == ResultsFor(results, variables[i])
      && rows[i].probability == CalcProbability(ResultsFor(results, variables[i]), ThresholdBase(ts, variables[i]))
  {
    seq(|variables|, i requires 0 <= i < |variables| =>
      var values := ResultsFor(results, variables[i]);
      Row(variables[i], CalcProbability(values, ThresholdBase(ts, variables[i])), values))
  }

  /** `mostLikelyData`: the mean of each selected variable's series. */
  function MostLikelyMap(variables: seq<string>, results: map<string, seq<JsNum>>): (m: map<string, JsNum>)
    ensures m.Keys == set v | v in variables
    ensures forall v :: v in m ==> m[v] == CalcMostLikely(ResultsFor(results, v))
  {
    map v | v in variables :: CalcMostLikely(ResultsFor(results, v))
  }

  /**
   * What a press of "Fetch Data" leaves on the page. `SelectionError` only
   * sets the error message and returns, so the rows, most likely values and
   * summary of an earlier press stay on screen. In `Loaded`, `error` is the
   * message the `catch` block sets when building the summary text throws,
   * which happens after the rows and most likely values have been stored.
   */
  datatype FetchState =
    | SelectionError(message: string)
    | Loaded(request: Option<WeatherFetch.Request>, rows: seq<Row>, mostLikely: map<string, JsNum>,
             error: Option<string>)

  const FetchFailedMessage: string := "Failed to fetch data. Please try again."

  /**
   * The summary reads `t.value` of `thresholds[d.variable]`, which throws
   * exactly when a selected variable has no threshold entry.
   */
  predicate SummaryThrows(variables: seq<string>, ts: Thresholds) {
    exists v :: v in variables && v !in ts
  }

  /** The year span the page asks for. */
  const PageYears: int := 20

  /**
   * `handleFetchData` for the selected date and variables, given the
   * service's answer. The page passes the span `20` in the position of the
   * unit preferences, so every series keeps the service's base units and
   * the default span of 20 years applies.
   */
  function HandleFetchData(variables: seq<string>, ts: Thresholds, date: CalendarDate,
                           response: Option<WeatherFetch.ParameterData>): (st: FetchState)
    requires ValidFields(date)
    ensures |variables| == 0 <==> st.SelectionError?
    ensures st.SelectionError? ==> st.message == "Select at least one variable!"
    ensures st.Loaded? ==> |st.rows| == |variables| && st.mostLikely.Keys == set v | v in variables
    ensures st.Loaded? ==> (st.error.Some? <==> exists v :: v in variables && v !in ts)
    ensures st.Loaded? && st.error.Some? ==> st.error.value == FetchFailedMessage
  {
    if |variables| == 0 then SelectionError("Select at least one variable!")
    else
      var out := WeatherFetch.FetchWeatherData(variables, map[], date, PageYears, response);
      var error := if SummaryThrows(variables, ts) then Some(FetchFailedMessage) else None;
      Loaded(out.request, Rows(variables, ts, out.results), MostLikelyMap(variables, out.results), error)
  }

  /**
   * On the page the summary never throws: every selectable variable has a
   * default threshold, and the edits only ever add keys, so any thresholds
   * reached from the defaults still hold an entry for it.
   */
  lemma PageFetchHasNoError(variables: seq<string>, ts: Thresholds, date: CalendarDate,
                            response: Option<WeatherFetch.ParameterData>)
    requires ValidFields(date) && |variables| > 0
    requires forall v :: v in variables ==> v in UnitOptions
    requires DefaultThresholds.Keys <= ts.Keys
    ensures HandleFetchData(variables, ts, date, response).Loaded?
    ensures HandleFetchData(variables, ts, date, response).error.None?
  {
    DefaultsCoverOptions();
  }

  /**
   * A selected variable without a threshold entry still gets its row and
   * most likely value, but the page then shows the fetch error.
   */
  lemma MissingThresholdShowsError(variables: seq<string>, ts: Thresholds, date: CalendarDate,
                                   response: Option<WeatherFetch.ParameterData>, i: nat)
    requires ValidFields(date) && i < |variables| && variables[i] !in ts
    ensures var st := HandleFetchData(variables, ts, date, response);
      && st.Loaded?
      && st.error == Some(FetchFailedMessage)
      && st.rows[i].variable == variables[i]
      && variables[i] in st.mostLikely
  {
    assert variables[i] in variables;
  }

  /**
   * Each known variable's row holds the twenty raw yearly values, oldest
   * first, and its probability is computed against the threshold in base units.
   */
  lemma RowsHoldBaseSeries(variables: seq<string>, ts: Thresholds, date: CalendarDate,
                           data: WeatherFetch.ParameterData, i: nat)
    requires ValidFields(date) && i < |variables| && variables[i] in WeatherFetch.VariableMap
    ensures var st := HandleFetchData(variables, ts, date, Some(data));
      var v := variables[i];
      && st.Loaded?
      && st.rows[i].values == WeatherFetch.Series(v, map[], Generate(date, PageYears), data)
      && |st.rows[i].values| == 20
      && st.rows[i].probability == CalcProbability(st.rows[i].values, ThresholdBase(ts, v))
  {
    var v := variables[i];
    WeatherFetch.ResultOf(variables, map[], date, PageYears, data, v);
  }

  /**
   * With default units every value of a row is what the service holds for
   * the j-th historical date (the key of year `year - 20 + j`), or `null`.
   */
  lemma RowValuesAreRaw(variables: seq<string>, ts: Thresholds, date: CalendarDate,
                        data: WeatherFetch.ParameterData, i: nat, j: nat)
    requires ValidFields(date) && i < |variables| && variables[i] in WeatherFetch.VariableMap
    requires j < PageYears
    ensures var st := HandleFetchData(variables, ts, date, Some(data));
      var v := variables[i];
      var code := WeatherFetch.ChooseKey(v, data);
      st.Loaded? && |st.rows[i].values| == PageYears
      && st.rows[i].values[j] == WeatherFetch.RawValue(data, code, Generate(date, PageYears)[j])
  {
    var v := variables[i];
    var dates := Generate(date, PageYears);
    RowsHoldBaseSeries(variables, ts, date, data, i);
    BaseSeriesEntry(v, dates, data, j);
  }

  lemma BaseSeriesEntry(v: string, dates: seq<string>, data: WeatherFetch.ParameterData, j: nat)
    requires v in WeatherFetch.VariableMap && j < |dates|
    ensures WeatherFetch.Series(v, map[], dates, data)[j]
      == WeatherFetch.RawValue(data, WeatherFetch.ChooseKey(v, data), dates[j])
  {
    assert WeatherFetch.UnitFor(map[], v) == WeatherFetch.DefaultUnit(v);
    WeatherFetch.SeriesEntry(v, map[], dates, data, j);
  }

  /** A failed fetch leaves one empty row per variable, probability 0, and no most likely value. */
  lemma FailedFetch(variables: seq<string>, ts: Thresholds, date: CalendarDate)
    requires ValidFields(date) && |variables| > 0
    ensures var st := HandleFetchData(variables, ts, date, None);
      && st.Loaded?
      && (forall i :: 0 <= i < |variables| ==> st.rows[i].values == [] && st.rows[i].probability == 0.0)
      && (forall v :: v in st.mostLikely ==> st.mostLikely[v] == Null)
  {
  }

  /** Five temperatures, three of them (32, 35 and 31) above 30 °C, give 60 %. */
  lemma ExampleProbability()
    ensures CalcProbability([Num(28.0), Num(32.0), Num(35.0), Num(29.0), Num(31.0)], Num(30.0)) == 60.0
  {
    TemperaturesClean();
    TemperaturesAbove();
    assert Probability.Percentage(3, 5) == 60.0;
  }

  lemma TemperaturesClean()
    ensures Probability.Clean([Num(28.0), Num(32.0), Num(35.0), Num(29.0), Num(31.0)])
      == [28.0, 32.0, 35.0, 29.0, 31.0]
  {
    Probability.CleanCons(Num(31.0), []);
    Probability.CleanCons(Num(29.0), [Num(31.0)]);
    Probability.CleanCons(Num(35.0), [Num(29.0), Num(31.0)]);
    Probability.CleanCons(Num(32.0), [Num(35.0), Num(29.0), Num(31.0)]);
    Probability.CleanCons(Num(28.0), [Num(32.0), Num(35.0), Num(29.0), Num(31.0)]);
  }

  lemma TemperaturesAbove()
    ensures Probability.CountAbove([28.0, 32.0, 35.0, 29.0, 31.0], Num(30.0)) == 3
  {
    var c := Num(30.0);
    Probability.CountAboveCons(31.0, [], c);
    Probability.CountAboveCons(29.0, [31.0], c);
    Probability.CountAboveCons(35.0, [29.0, 31.0], c);
    Probability.CountAboveCons(32.0, [35.0, 29.0, 31.0], c);
    Probability.CountAboveCons(28.0, [32.0, 35.0, 29.0, 31.0], c);
  }

  /** The mean of 10, 20 and 30 is 20. */
  lemma ExampleMean()
    ensures CalcMostLikely([Num(10.0), Num(20.0), Num(30.0)]) == Num(20.0)
  {
    Probability.CleanCons(Num(30.0), []);
    Probability.CleanCons(Num(20.0), [Num(30.0)]);
    Probability.CleanCons(Num(10.0), [Num(20.0), Num(30.0)]);
    assert Probability.Clean([Num(10.0), Num(20.0), Num(30.0)]) == [10.0, 20.0, 30.0];
    assert Sum([10.0, 20.0, 30.0]) == 60.0 by {
      assert [10.0, 20.0, 30.0][..2] == [10.0, 20.0];
      assert [10.0, 20.0][..1] == [10.0];
    }
  }

  /** Missing samples are skipped by the mean. */
  lemma ExampleMissingMean()
    ensures CalcMostLikely([Null, Null, Num(5.0)]) == Num(5.0)
  {
    MissingClean();
    assert Sum([5.0]) == 5.0 by {
      assert [5.0][..0] == [];
    }
  }

  /** Missing samples are skipped by the probability. */
  lemma ExampleMissingProbability()
    ensures CalcProbability([Null, Null, Num(5.0)], Num(0.0)) == 100.0
  {
    MissingClean();
    Probability.CountAboveCons(5.0, [], Num(0.0));
  }

  lemma MissingClean()
    ensures Probability.Clean([Null, Null, Num(5.0)]) == [5.0]
  {
    Probability.CleanCons(Num(5.0), []);
    Probability.CleanCons(Null, [Num(5.0)]);
    Probability.CleanCons(Null, [Null, Num(5.0)]);
  }
}
