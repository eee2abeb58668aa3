/**
 * The pure part of `src/utils/fetchWeatherData.js`: which requested
 * variables are known, the de-duplicated parameter list and date range of the
 * request, and how the decoded response is turned into one aligned series per
 * variable. The HTTP call itself is not modelled: its decoded
 * `properties.parameter` object is an input, and `None` stands for a request
 * that failed (or a response of the wrong shape), which the source catches.
 */
module WeatherFetch {
  import opened Wrappers
  import opened JsValues
  import opened Sequences
  import opened HistoricalDates

  /** A `variableMap` entry: one parameter code, or candidate codes tried in order. */
  datatype ParamKey = Single(code: string) | Candidates(codes: seq<string>)

  const DustCandidates: seq<string> := ["AODVIS", "AOD550", "AOD"]

  /** `variableMap`: dashboard variable name to weather-service parameter code(s). */
  const VariableMap: map<string, ParamKey> := map[
    "Temperature" := Single("T2M"),
    "Rainfall" := Single("PRECTOTCORR"),
    "Wind Speed" := Single("WS10M"),
    "Humidity" := Single("RH2M"),
    "Dust Concentration" := Candidates(DustCandidates)
  ]

  /** The decoded `properties.parameter` object: parameter code to date key to value. */
  type ParameterData = map<string, map<string, JsNum>>

  /** The unit names passed in `unitPrefs`, per variable. */
  type UnitPrefs = map<string, string>

  /**
   * `getDefaultUnit(variable)`: every fetched variable except the dust
   * column has a named default, and no default is a unit that
   * `convertValue` converts into.
   */
  function DefaultUnit(variable: string): (u: string)
    ensures u != "" <==> variable in VariableMap && variable != "Dust Concentration"
    ensures u !in {"F", "in", "km/h", "mph"}
  {
    match variable
    case "Temperature" => "C"
    case "Rainfall" => "mm"
    case "Wind Speed" => "m/s"
    case "Humidity" => "%"
    case _ => ""
  }

  /**
   * `convertValue(variable, value, unit)`: from the service's base unit into
   * `unit`. Only Fahrenheit, inches, km/h and mph convert; `null` and
   * `undefined` become `null`.
   */
  function ConvertValue(variable: string, value: JsNum, unit: string): (r: JsNum)
    ensures IsNullish(value) ==> r == Null
    ensures !IsNullish(value) ==> (r.Num? <==> value.Num?) && (r.NaN? <==> value.NaN?)
    ensures unit == DefaultUnit(variable) && !IsNullish(value) ==> r == value
    ensures variable !in {"Temperature", "Rainfall", "Wind Speed"} && !IsNullish(value) ==> r == value
  {
    if IsNullish(value) then Null
    else match variable
      case "Temperature" =>
        if unit == "F" then Apply(value, x => x * 9.0 / 5.0 + 32.0) else value
      case "Rainfall" =>
        if unit == "in" then Apply(value, x => x / 25.4) else value
      case "Wind Speed" =>
        if unit == "km/h" then Apply(value, x => x * 3.6)
        else if unit == "mph" then Apply(value, x => x * 2.237)
        else value
      case _ => value
  }

  /** The default unit of every variable is the unit the service reports in. */
  lemma DefaultUnitIsBase(variable: string, x: real)
    ensures ConvertValue(variable, Num(x), DefaultUnit(variable)) == Num(x)
  {
  }

  /**
   * The second copy of `getHistoricalDates`, written as the loop the source
   * runs; it produces exactly what the exported generator does.
   */
  method LocalHistoricalDates(date: CalendarDate, years: int) returns (keys: seq<string>)
    requires ValidFields(date)
    ensures keys == Generate(date, years)
  {
    keys := [];
    var start := date.year - years;
    var y := start;
    while y < date.year
      invariant start <= y
      invariant years >= 0 ==> y <= date.year
      invariant years < 0 ==> y == start
      invariant keys == Span(start, y - start, KeyOf(date))
    {
      assert KeyOf(date)(y) == DateKey(y, date.month, date.day);
      keys := keys + [DateKey(y, date.month, date.day)];
      y := y + 1;
    }
  }

  /** `variables.filter((v) => variableMap[v])`: order and repeats are kept. */
  function ValidVars(variables: seq<string>): (r: seq<string>)
    ensures |r| <= |variables|
    ensures forall v :: v in r <==> v in variables && v in VariableMap
    ensures forall i :: 0 <= i < |r| ==> r[i] in VariableMap
  {
    if |variables| == 0 then []
    else
      (if variables[0] in VariableMap then [variables[0]] else [])
        + ValidVars(variables[1..])
  }

  /** The codes one entry contributes to the parameter set. */
  function EntryCodes(entry: ParamKey): seq<string> {
    match entry
    case Single(code) => [code]
    case Candidates(codes) => codes
  }

  /** All codes of the valid variables, in request order, before de-duplication. */
  function AllCodes(valid: seq<string>): (codes: seq<string>)
    requires forall i :: 0 <= i < |valid| ==> valid[i] in VariableMap
    ensures forall c :: c in codes <==> exists v :: v in valid && c in EntryCodes(VariableMap[v])
  {
    if |valid| == 0 then []
    else
      assert forall v :: v in valid <==> v == valid[0] || v in valid[1..];
      EntryCodes(VariableMap[valid[0]]) + AllCodes(valid[1..])
  }

  /**
   * `Array.from(paramSet)`: every code of every valid variable, Dust
   * contributing all its candidates, each code once, in first-insertion order.
   */
  function ParamList(valid: seq<string>): (params: seq<string>)
    requires forall i :: 0 <= i < |valid| ==> valid[i] in VariableMap
    ensures NoDup(params)
    ensures forall c :: c in params <==> exists v :: v in valid && c in EntryCodes(VariableMap[v])
  {
    Dedupe(AllCodes(valid))
  }

  /** `codes.find((k) => data[k] != null)`: the first code the response holds. */
  function Find(codes: seq<string>, data: ParameterData): (r: Option<string>)
    ensures r.None? <==> forall c :: c in codes ==> c !in data
    ensures r.Some? ==> r.value in codes && r.value in data
    ensures r.Some? ==> forall j :: 0 <= j < |codes| && codes[j] in data ==> FirstIndex(codes, r.value) <= j
  {
    if |codes| == 0 then None
    else if codes[0] in data then Some(codes[0])
    else
      var r := Find(codes[1..], data);
      assert forall c :: c in codes <==> c == codes[0] || c in codes[1..];
      if r.Some? then
        assert FirstIndex(codes, r.value) == 1 + FirstIndex(codes[1..], r.value);
        r
      else r
  }

  /** The parameter code whose series a variable reads. */
  function ChooseKey(variable: string, data: ParameterData): (code: string)
    requires variable in VariableMap
    ensures code in EntryCodes(VariableMap[variable])
  {
    assert |DustCandidates| == 3;
    match VariableMap[variable]
    case Single(code) => code
    case Candidates(codes) => if |codes| == 0 then "" else Find(codes, data).GetOr(codes[0])
  }

  /** Dust reads the first candidate the response holds, and `"AODVIS"` when it holds none. */
  lemma DustKeyChoice(data: ParameterData)
    ensures ChooseKey("Dust Concentration", data) in DustCandidates
    ensures "AODVIS" in data ==> ChooseKey("Dust Concentration", data) == "AODVIS"
    ensures "AODVIS" !in data && "AOD550" in data ==> ChooseKey("Dust Concentration", data) == "AOD550"
    ensures "AODVIS" !in data && "AOD550" !in data && "AOD" in data ==>
      ChooseKey("Dust Concentration", data) == "AOD"
    ensures "AODVIS" !in data && "AOD550" !in data && "AOD" !in data ==>
      ChooseKey("Dust Concentration", data) == "AODVIS"
  {
    var codes := DustCandidates;
    assert codes[1..] == ["AOD550", "AOD"];
    assert codes[1..][1..] == ["AOD"];
    assert codes[1..][1..][1..] == [];
  }

  /** `data[chosen]?.[d] ?? null`. */
  function RawValue(data: ParameterData, code: string, date: string): (v: JsNum)
    ensures !v.Undefined?
    ensures code !in data || date !in data[code] ==> v == Null
  {
    if code in data && date in data[code] && !IsNullish(data[code][date]) then data[code][date]
    else Null
  }

  /** `unitPrefs[v] || getDefaultUnit(v)`: an empty or missing preference means the default. */
  function UnitFor(prefs: UnitPrefs, variable: string): (u: string)
    ensures variable in prefs && prefs[variable] != "" ==> u == prefs[variable]
    ensures u == DefaultUnit(variable) <==> variable !in prefs || prefs[variable] in {"", DefaultUnit(variable)}
  {
    if variable in prefs && prefs[variable] != "" then prefs[variable] else DefaultUnit(variable)
  }

  /** `historicalDates.map(...)` for one variable: one converted value per date, in date order. */
  function Series(variable: string, prefs: UnitPrefs, dates: seq<string>, data: ParameterData): (s: seq<JsNum>)
    requires variable in VariableMap
    ensures |s| == |dates|
    ensures forall i :: 0 <= i < |dates| ==>
      s[i] == ConvertValue(variable, RawValue(data, ChooseKey(variable, data), dates[i]), UnitFor(prefs, variable))
  {
    seq(|dates|, i requires 0 <= i < |dates| =>
      ConvertValue(variable, RawValue(data, ChooseKey(variable, data), dates[i]), UnitFor(prefs, variable)))
  }

  /** The query of the request: parameter list and first/last date (`undefined` when there are no dates). */
  datatype Request = Request(params: seq<string>, start: Option<string>, end: Option<string>)

  /** What a call produces: the request it sends (if any) and the `results` object. */
  datatype FetchOutcome = FetchOutcome(request: Option<Request>, results: map<string, seq<JsNum>>)

  /** The request for the valid variables: parameter list and the first and last date keys. */
  function BuildRequest(valid: seq<string>, dates: seq<string>): (req: Request)
    requires forall i :: 0 <= i < |valid| ==> valid[i] in VariableMap
    ensures req.params == ParamList(valid)
    ensures |dates| > 0 ==> req.start == Some(dates[0]) && req.end == Some(dates[|dates| - 1])
    ensures |dates| == 0 ==> req.start.None? && req.end.None?
  {
    Request(ParamList(valid),
            if |dates| > 0 then Some(dates[0]) else None,
            if |dates| > 0 then Some(dates[|dates| - 1]) else None)
  }

  /** The `results` object: one series per valid variable. */
  function Assemble(valid: seq<string>, prefs: UnitPrefs, dates: seq<string>, data: ParameterData)
    : (results: map<string, seq<JsNum>>)
    requires forall i :: 0 <= i < |valid| ==> valid[i] in VariableMap
    ensures results.Keys == set v | v in valid
    ensures forall v :: v in results ==> v in VariableMap && results[v] == Series(v, prefs, dates, data)
  {
    map v | v in valid :: Series(v, prefs, dates, data)
  }

  /** `fetchWeatherData(lat, lon, date, variables, unitPrefs, years)` given the service's answer. */
  function FetchWeatherData(variables: seq<string>, prefs: UnitPrefs, date: CalendarDate, years: int,
                            response: Option<ParameterData>): (out: FetchOutcome)
    requires ValidFields(date)
    ensures ValidVars(variables) == [] ==> out == FetchOutcome(None, map[])
    ensures ValidVars(variables) != [] ==>
      out.request == Some(BuildRequest(ValidVars(variables), Generate(date, years)))
    ensures response.None? ==> out.results == map[]
    ensures response.Some? && ValidVars(variables) != [] ==>
      out.results == Assemble(ValidVars(variables), prefs, Generate(date, years), response.value)
  {
    var valid := ValidVars(variables);
    if |valid| == 0 then FetchOutcome(None, map[])
    else
      var dates := Generate(date, years);
      var request := BuildRequest(valid, dates);
      match response
      case None => FetchOutcome(Some(request), map[])
      case Some(data) => FetchOutcome(Some(request), Assemble(valid, prefs, dates, data))
  }

  /** The result keys are exactly the requested variables that are known, each series one entry per date. */
  lemma ResultKeys(variables: seq<string>, prefs: UnitPrefs, date: CalendarDate, years: int, data: ParameterData)
    requires ValidFields(date)
    ensures var results := FetchWeatherData(variables, prefs, date, years, Some(data)).results;
      && results.Keys == (set v | v in variables && v in VariableMap)
      && forall v :: v in results ==> |results[v]| == if years >= 0 then years else 0
  {
    var valid := ValidVars(variables);
    var out := FetchWeatherData(variables, prefs, date, years, Some(data));
    assert (set v | v in valid) == (set v | v in variables && v in VariableMap);
    if valid == [] {
      assert out.results == map[];
    } else {
      var dates := Generate(date, years);
      assert out.results == Assemble(valid, prefs, dates, data);
      forall v | v in out.results
        ensures |out.results[v]| == |dates|
      {
        assert out.results[v] == Series(v, prefs, dates, data);
      }
    }
  }

  /** The request spans the first to the last historical date. */
  lemma RequestRange(variables: seq<string>, prefs: UnitPrefs, date: CalendarDate, years: int,
                     response: Option<ParameterData>)
    requires ValidFields(date) && years >= 1 && ValidVars(variables) != []
    ensures FetchWeatherData(variables, prefs, date, years, response).request.value.start
      == Some(DateKey(date.year - years, date.month, date.day))
    ensures FetchWeatherData(variables, prefs, date, years, response).request.value.end
      == Some(DateKey(date.year - 1, date.month, date.day))
  {
    GenerateEnds(date, years);
  }

  /** One entry of a series: `null` when the response lacks the date; the raw value under default units. */
  lemma SeriesEntry(v: string, prefs: UnitPrefs, dates: seq<string>, data: ParameterData, i: nat)
    requires v in VariableMap && i < |dates|
    ensures var code := ChooseKey(v, data);
      var s := Series(v, prefs, dates, data);
      (code !in data || dates[i] !in data[code] ==> s[i] == Null) &&
      (UnitFor(prefs, v) == DefaultUnit(v) ==> s[i] == RawValue(data, code, dates[i]))
  {
    var raw := RawValue(data, ChooseKey(v, data), dates[i]);
    assert Series(v, prefs, dates, data)[i] == ConvertValue(v, raw, UnitFor(prefs, v));
  }

  /** `SeriesEntry` for the i-th historical date. */
  lemma HistoricalEntry(v: string, prefs: UnitPrefs, date: CalendarDate, years: int, data: ParameterData, i: nat)
    requires ValidFields(date) && v in VariableMap && i < years
    ensures var code := ChooseKey(v, data);
      var key := DateKey(date.year - years + i, date.month, date.day);
      var s := Series(v, prefs, Generate(date, years), data);
      (code !in data || key !in data[code] ==> s[i] == Null) &&
      (UnitFor(prefs, v) == DefaultUnit(v) ==> s[i] == RawValue(data, code, key))
  {
    var dates := Generate(date, years);
    assert dates[i] == DateKey(date.year - years + i, date.month, date.day);
    SeriesEntry(v, prefs, dates, data, i);
  }

  /** A known requested variable gets the series of the historical dates. */
  lemma ResultOf(variables: seq<string>, prefs: UnitPrefs, date: CalendarDate, years: int,
                 data: ParameterData, v: string)
    requires ValidFields(date) && v in variables && v in VariableMap
    ensures v in FetchWeatherData(variables, prefs, date, years, Some(data)).results
    ensures FetchWeatherData(variables, prefs, date, years, Some(data)).results[v]
      == Series(v, prefs, Generate(date, years), data)
  {
    assert v in ValidVars(variables);
  }

  /**
   * Each series holds, for the i-th historical date, the value the response
   * holds for that date under the chosen code, or `null` when it holds none;
   * with default units nothing is converted.
   */
  lemma ResultsAligned(variables: seq<string>, prefs: UnitPrefs, date: CalendarDate, years: int,
                       data: ParameterData, v: string, i: nat)
    requires ValidFields(date) && v in variables && v in VariableMap
    requires 0 <= i < years
    ensures v in FetchWeatherData(variables, prefs, date, years, Some(data)).results
    ensures |FetchWeatherData(variables, prefs, date, years, Some(data)).results[v]| == years
    ensures var code := ChooseKey(v, data);
      var key := DateKey(date.year - years + i, date.month, date.day);
      var s := FetchWeatherData(variables, prefs, date, years, Some(data)).results[v];
      (code !in data || key !in data[code] ==> s[i] == Null) &&
      (UnitFor(prefs, v) == DefaultUnit(v) ==> s[i] == RawValue(data, code, key))
  {
    ResultOf(variables, prefs, date, years, data, v);
    HistoricalEntry(v, prefs, date, years, data, i);
  }
}
