# ClimateScope in Dafny

A model of the computational core of ClimateScope, a web dashboard. It estimates how likely extreme weather is on a chosen calendar day, using twenty years of daily history. It also shows an air-quality index derived from aerosol optical depth.

The model covers these parts of the JavaScript sources:

- **Exceedance probability and mean.**
  - The share of usable samples above an absolute or percentile cut-off (`calcProbability`).
  - The dashboard's own absolute-only copy of that function, its mean (`calcMostLikely`) and its display-to-base unit conversion (`convertToBase`).
- **Historical dates.** The `YYYYMMDD` keys of the same month and day in each preceding year. The function exists twice, and the model includes its loop form.
- **Unit conversions.** The fetcher's base-to-display conversion, the list converters, and how these relate to the dashboard's inverse conversion.
- **Weather response assembly.**
  - The pure part of `fetchWeatherData`: the valid variables and the de-duplicated parameter list.
  - The request's date range and the choice of dust key.
  - Alignment of each result series to the dates.
  - The dashboard's mapping of results into rows and most-likely values.
- **Air quality.**
  - Optical depth to PM2.5 and PM10, and the EPA piecewise-linear index. The PM2.5 breakpoints are those of 40 CFR Part 58, Appendix G, Table 2, as they stood before 2024.
  - The page's six categories, their range and colour tables, and their icons and advice.
  - The map's marker colours, the clamp applied to simulated grid indices, and the default map centre.
- **Rule tables.** The celebration-animation choice and the activity suggestions with their de-duplicated display.
- **Small state updates.** The variable toggle, the threshold input update, and the dashboard's threshold value and unit edits.

JavaScript number slots are the datatype `JsValues.JsNum = Num(real) | Null | Undefined | NaN`:

- Comparisons go through the numeric coercion: `null` compares as 0, `undefined` as NaN, and anything involving NaN is false.
- Numbers are mathematical reals.
- `Math.round` is `floor(x + 1/2)`.
- String-to-number conversions are modelled for plain decimal literals.

Every source file has a module of its own. Shared vocabulary lives in `Wrappers`, `JsValues`, `Sequences` and `Decimal`:

- `Array.from(new Set(xs))` keeps first occurrences.
- `filter(x => x !== v)` removes every occurrence.
- `toString`, `padStart`, `parseFloat` and `Number` are modelled on digit strings.

A few facts about the code that the model keeps as written:

- **The worked example.** Against a threshold of 30, the samples `[28, 32, 35, 29, 31]` give 60 %, because three of the five (32, 35 and 31) exceed 30 (`Dashboard.ExampleProbability`).
- **The mph and inch constants.** There are three mph constants: 2.237 in the fetcher, 2.23694 in the list converter, and 0.44704 back to base. There are two inch constants: the fetcher divides by 25.4, while the list converter multiplies by 0.0393701. The model keeps every constant, and `UnitAgreement` proves which pairs are inverse and which are not.
- **Non-numbers in `convertToBase`.** `convertToBase` returns `null`, `undefined` and NaN unchanged.
- **No histogram.** The code draws no histogram of the samples, so the model has none.

## Model

| member | source | states |
|---|---|---|
| Probability.CalcProbability | src/utils/calcProbability.js:2-17 | the result is a percentage in [0, 100], and 0 when no entry is a usable number |
| Probability.Clean | src/utils/calcProbability.js:3 | the filtered copy is never longer than the input; `CleanMembers` says which entries it keeps |
| Probability.CleanMembers | src/utils/calcProbability.js:3 | the cleaned samples are exactly the numbers among the values; null, undefined and NaN are dropped |
| Probability.CleanAppend | src/utils/calcProbability.js:3 | cleaning works piecewise over concatenation, so the samples keep their order |
| Probability.CleanIgnoresNonNumber | src/utils/calcProbability.js:3 | inserting a null, undefined or NaN entry anywhere leaves the cleaned samples unchanged |
| Probability.NonNumbersIgnored | src/utils/calcProbability.js:3-4 | inserting a null, undefined or NaN entry anywhere never changes the probability |
| Probability.CountAbove | src/utils/calcProbability.js:11-14 | the strict exceedance count never exceeds the sample count |
| Probability.Percentage | src/utils/calcProbability.js:12-15 | `(k / n) * 100` lies in [0, 100]; it is 0 exactly when k is 0, and 100 exactly when every sample exceeds |
| Probability.PercentageMonotone | src/utils/calcProbability.js:15 | a larger count never gives a smaller percentage |
| Probability.Sort | src/utils/calcProbability.js:7 | the sorted copy is ascending and a permutation of the cleaned samples; the caller's values are not reordered, because the sort acts on the filtered copy |
| Probability.CountAboveSort | src/utils/calcProbability.js:7-11 | sorting does not change how many samples exceed a cut-off |
| Probability.PercentileIndex | src/utils/calcProbability.js:8-9 | the floored percentile position is clamped into the valid indices [0, n-1] |
| Probability.PercentileCutoff | src/utils/calcProbability.js:8-10 | the cut-off is a number exactly when the percentile value coerces to a number, and undefined otherwise |
| Probability.PercentileCutoffIsSample | src/utils/calcProbability.js:8-10 | for a numeric percentile, the cut-off is one of the caller's own numbers |
| Probability.AbsoluteExtremes | src/utils/calcProbability.js:13-15 | absolute cut-off: 0 % when no sample exceeds it and 100 % when all do; a sample equal to the cut-off does not count |
| Probability.AbsoluteAntitone | src/utils/calcProbability.js:14-15 | raising the absolute cut-off never raises the probability |
| Probability.NaNThresholdGivesZero | src/utils/calcProbability.js:8-14 | an undefined or NaN threshold value gives 0 for both kinds of cut-off |
| Probability.PercentileFullGivesZero | src/utils/calcProbability.js:8-12 | a percentile of 100 or more selects the largest sample, so the result is 0 |
| Probability.PercentileBound | src/utils/calcProbability.js:8-12 | for a percentile p in [0, 100], the result never exceeds 100 - p |
| Probability.CountAboveSortedElement | src/utils/calcProbability.js:10-11 | in a sorted sample, only elements after position i can exceed the element at i |
| Dashboard.ConvertToBase | src/pages/Dashboard.js:22-37 | null, undefined and NaN come back unchanged; a number stays a number; variables without a conversion and a missing unit are the identity |
| Dashboard.BaseOptionIsIdentity | src/pages/Dashboard.js:13-19 | the first unit offered for every variable is the base unit (°C, mm, m/s, %, AOD) |
| Dashboard.ConvertToBaseStrictlyIncreasing | src/pages/Dashboard.js:25-33 | every conversion to base preserves the strict order of thresholds |
| Dashboard.CalcProbability | src/pages/Dashboard.js:39-44 | the dashboard's copy yields a percentage in [0, 100], and 0 without usable samples |
| Dashboard.CalcProbabilityAgrees | src/pages/Dashboard.js:39-44 | the copy equals the utility's absolute branch for every threshold, non-numbers included |
| Dashboard.CalcProbabilityAntitone | src/pages/Dashboard.js:42 | a higher threshold never gives a higher probability |
| Dashboard.CalcMostLikely | src/pages/Dashboard.js:46-51 | the result is null exactly when there are no usable samples, and a number otherwise |
| Dashboard.Sum | src/pages/Dashboard.js:49 | an empty list sums to the reduce's initial value 0 |
| Dashboard.MostLikelyWithin | src/pages/Dashboard.js:46-51 | the mean lies within any bounds that contain every numeric sample, so it lies between the smallest and the largest |
| Dashboard.SumBounds | src/pages/Dashboard.js:49 | the sum of n samples within [lo, hi] lies in [n·lo, n·hi] |
| Dashboard.MostLikelyOfConstant | src/pages/Dashboard.js:46-51 | samples that all equal c have mean c |
| Dashboard.MostLikelyIgnoresNonNumbers | src/pages/Dashboard.js:47 | inserting a null, undefined or NaN entry anywhere does not change the mean |
| Dashboard.ThresholdBase | src/pages/Dashboard.js:94-98 | a variable without a threshold entry yields undefined; a numeric threshold stays numeric after conversion |
| Dashboard.DefaultThresholdsAreBase | src/pages/Dashboard.js:67-73 | the initial thresholds are already in base units, so conversion leaves them unchanged |
| Dashboard.DefaultsCoverOptions | src/pages/Dashboard.js:13-73 | every variable with unit options has an initial threshold, whose unit is the first option |
| Dashboard.DisplayedValue | src/pages/Dashboard.js:191 | the input shows a non-nullish value, and 0 for a variable without an entry |
| Dashboard.EditValue | src/pages/Dashboard.js:192-200 | editing a value stores `Number(text)` and keeps that variable's unit; every other variable's entry is unchanged; the key set gains only the edited variable |
| Dashboard.EditUnit | src/pages/Dashboard.js:205-209 | editing a unit stores that unit and keeps the value; every other entry is unchanged |
| Dashboard.EditsCommute | src/pages/Dashboard.js:192-209 | a value edit and a unit edit of the same variable give the same entry in either order |
| Dashboard.EditValueShown | src/pages/Dashboard.js:191-197 | after a value edit the input shows `Number(text)`; an emptied input shows 0 |
| Dashboard.ResultsFor | src/pages/Dashboard.js:93 | a variable missing from the fetched results gets the empty series |
| Dashboard.Rows | src/pages/Dashboard.js:92-101 | one row per selected variable, in selection order, with its series and its probability against the base-unit threshold |
| Dashboard.MostLikelyMap | src/pages/Dashboard.js:106-110 | one most-likely entry per selected variable: the mean of its series |
| Dashboard.HandleFetchData | src/pages/Dashboard.js:75-124 | an empty selection sets the error "Select at least one variable!" and fetches nothing; otherwise there is one row and one most-likely entry per selected variable, and the error "Failed to fetch data. Please try again." is set exactly when some selected variable has no threshold entry, which makes the summary's `t.value` throw |
| Dashboard.PageFetchHasNoError | src/pages/Dashboard.js:75-124 | with a non-empty selection of offered variables and thresholds that cover the defaults, the fetch ends without an error |
| Dashboard.MissingThresholdShowsError | src/pages/Dashboard.js:113-124 | a selected variable without a threshold entry makes the fetch end with "Failed to fetch data. Please try again.", after its row and its most-likely entry were already stored |
| Dashboard.RowsHoldBaseSeries | src/pages/Dashboard.js:84-101 | the value 20 lands in the unit-preference slot, so each row holds the fetcher's 20-entry series in base units, and its probability is computed from that series |
| Dashboard.RowValuesAreRaw | src/pages/Dashboard.js:84-93 | entry j of a row is the raw response value for the j-th historical date, with no unit conversion applied |
| Dashboard.FailedFetch | src/pages/Dashboard.js:92-110 | when the request fails, every row has no values and probability 0, and every most-likely entry is null |
| Dashboard.ExampleProbability | src/pages/Dashboard.js:39-44 | samples [28, 32, 35, 29, 31] against 30 give 60 % |
| Dashboard.ExampleMean | src/pages/Dashboard.js:46-51 | samples [10, 20, 30] have mean 20 |
| Dashboard.ExampleMissingMean | src/pages/Dashboard.js:46-51 | [null, null, 5] has mean 5 |
| Dashboard.ExampleMissingProbability | src/pages/Dashboard.js:39-44 | [null, null, 5] is 100 % above 0 |
| HistoricalDates.Generate | src/utils/getHistoricalDates.js:2-17 | the key count is `years` (none for a negative span); key i is the key of year `year - years + i`, with the input's month and day |
| HistoricalDates.GenerateDefault | src/utils/getHistoricalDates.js:2 | the default span yields 20 keys |
| HistoricalDates.GenerateEnds | src/utils/getHistoricalDates.js:6-10 | the first key is `years` back from the selected date's own year, and the last is the year before it |
| HistoricalDates.GenerateKeepsMonthDay | src/utils/getHistoricalDates.js:4-13 | every key ends in the input's zero-padded `MMDD` |
| HistoricalDates.MonthDay | src/utils/getHistoricalDates.js:11-12 | `MMDD` is four digits |
| HistoricalDates.DateKey | src/utils/getHistoricalDates.js:13 | a key has at least five characters: at least one for the year and four for `MMDD` |
| HistoricalDates.DateKeyFields | src/utils/getHistoricalDates.js:10-13 | for every year, even a negative or short one, the last four characters of a key are digits that read back as the month and the day |
| HistoricalDates.Span | src/utils/getHistoricalDates.js:9-13 | the loop pushes one key per year, `n` keys in all |
| HistoricalDates.SpanAt | src/utils/getHistoricalDates.js:9-13 | key i of the loop is the key of year `start + i` |
| HistoricalDates.DateKeyRoundTrip | src/utils/getHistoricalDates.js:10-13 | for four-digit years a key has exactly 8 characters and reads back as the year, month and day that produced it |
| HistoricalDates.LeapDayKept | src/utils/getHistoricalDates.js:4-13 | February 29 is kept as `0229` in every year, with no calendar check |
| Decimal.PadStart2RoundTrip | src/utils/getHistoricalDates.js:11-12 | a month or day padded to two digits reads back as the same number |
| Decimal.DigitsValueOfNatToString | src/utils/getHistoricalDates.js:10-12 | reading back the decimal digits that `toString` writes gives the number |
| WeatherFetch.ConvertValue | src/utils/fetchWeatherData.js:14-40 | null and undefined become null; numbers stay numbers and NaN stays NaN; the default unit and the unconverted variables are the identity |
| WeatherFetch.DefaultUnit | src/utils/fetchWeatherData.js:116-129 | every fetched variable except dust concentration has a non-empty default unit, and no default is one of the units `convertValue` converts into (F, in, km/h, mph) |
| WeatherFetch.UnitFor | src/utils/fetchWeatherData.js:103 | a non-empty preference is used as given; the default unit is used exactly when the preference is missing, empty or already the default |
| WeatherFetch.DefaultUnitIsBase | src/utils/fetchWeatherData.js:14-129 | converting to a variable's default unit gives the value back, for every variable |
| WeatherFetch.LocalHistoricalDates | src/utils/fetchWeatherData.js:43-57 | the loop in the fetcher produces exactly the keys of the separate date utility |
| WeatherFetch.ValidVars | src/utils/fetchWeatherData.js:68 | the valid variables are exactly the requested ones that have a parameter entry, in request order |
| WeatherFetch.AllCodes | src/utils/fetchWeatherData.js:73-80 | the codes are exactly those of the valid variables' entries, with dust contributing all its candidates |
| WeatherFetch.ParamList | src/utils/fetchWeatherData.js:72-81 | the parameter list holds each valid variable's codes, each exactly once |
| WeatherFetch.Find | src/utils/fetchWeatherData.js:98 | `find` returns the first candidate present in the response, and nothing exactly when none is present |
| WeatherFetch.ChooseKey | src/utils/fetchWeatherData.js:95-99 | the chosen key is always one of the variable's own codes |
| WeatherFetch.DustKeyChoice | src/utils/fetchWeatherData.js:96-99 | for dust: AODVIS if present, else AOD550, else AOD, else AODVIS |
| WeatherFetch.RawValue | src/utils/fetchWeatherData.js:102 | a value missing from the response reads as null, never undefined |
| WeatherFetch.Series | src/utils/fetchWeatherData.js:101-105 | one entry per date, in date order; each is the converted response value for that date |
| WeatherFetch.BuildRequest | src/utils/fetchWeatherData.js:81-85 | the request carries the parameter list, and it runs from the first date to the last date |
| WeatherFetch.Assemble | src/utils/fetchWeatherData.js:93-106 | the result keys are exactly the valid variables, and each holds that variable's series |
| WeatherFetch.FetchWeatherData | src/utils/fetchWeatherData.js:60-113 | no valid variable gives `{}` with no request; a failed request gives `{}`; otherwise the results are the assembled series over the historical dates |
| WeatherFetch.ResultKeys | src/utils/fetchWeatherData.js:68-106 | the result keys are exactly the requested known variables, and each series has one entry per year of the span |
| WeatherFetch.RequestRange | src/utils/fetchWeatherData.js:82-85 | the request starts `years` back from the selected year and ends the year before it |
| WeatherFetch.ResultOf | src/utils/fetchWeatherData.js:94-105 | each requested known variable's result is its series over the historical dates |
| WeatherFetch.ResultsAligned | src/utils/fetchWeatherData.js:101-105 | entry i of a result belongs to year `year - years + i`; it is null when the response lacks that day, and the raw value in default units |
| UnitConversions.MapPresent | src/utils/unitConverstions.js:5-28 | mapping keeps the length, turns null and undefined into null at the same index, and converts the rest |
| UnitConversions.ConvertTemperature | src/utils/unitConverstions.js:3-8 | same length; any unit but "F" returns the input; null stays null and numbers stay numbers |
| UnitConversions.ConvertRainfall | src/utils/unitConverstions.js:10-15 | same length; any unit but "in" returns the input; null stays null and numbers stay numbers |
| UnitConversions.WindFactor | src/utils/unitConverstions.js:20-27 | every wind factor is positive |
| UnitConversions.ConvertWindSpeed | src/utils/unitConverstions.js:17-29 | same length; nullish entries become null; any unit but "kmh" and "mph" leaves numbers unchanged |
| UnitConversions.ConvertHumidity | src/utils/unitConverstions.js:32-34 | humidity is returned unchanged |
| UnitConversions.ConversionsStrictlyIncreasing | src/utils/unitConverstions.js:5-24 | every non-identity conversion preserves the strict order of numeric entries |
| UnitConversions.WindSpeedKmhLabel | src/utils/unitConverstions.js:21-26 | "kmh" multiplies by 3.6, while the label "km/h" falls to the default and is the identity |
| UnitAgreement.FahrenheitRoundTrip | src/pages/Dashboard.js:27 | converting to °F and back to base, in either order, gives the value back |
| UnitAgreement.InchesRoundTrip | src/pages/Dashboard.js:29 | converting to inches and back, in either order, gives the value back |
| UnitAgreement.KmhRoundTrip | src/pages/Dashboard.js:31 | converting to km/h and back, in either order, gives the value back |
| UnitAgreement.MphNotInverse | src/pages/Dashboard.js:32 | converting to mph (×2.237) and back (×0.44704) scales by 1.00002848, so every non-zero speed drifts |
| UnitAgreement.ListMphNotInverse | src/utils/unitConverstions.js:23-24 | the list converter's 2.23694 is not inverted by 0.44704 either |
| UnitAgreement.TemperatureListAgrees | src/utils/unitConverstions.js:3-8 | the list converter and the fetcher agree on °F for every entry |
| UnitAgreement.WindListAgrees | src/utils/unitConverstions.js:17-29 | the list converter's "kmh" is the fetcher's "km/h", entry by entry |
| UnitAgreement.RainfallListDiffers | src/utils/unitConverstions.js:10-15 | the list converter's ×0.0393701 differs from the fetcher's /25.4 on every non-zero amount: 25.4 mm gives 1.00000054 inches instead of 1 |
| AirQualityData.AodToPm25 | src/utils/fetchAirQualityData.js:42-47 | null exactly for a zero, null, undefined or NaN depth; otherwise 40 times the depth, never zero |
| AirQualityData.AodToPm10 | src/utils/fetchAirQualityData.js:50-55 | null exactly when the PM2.5 estimate is null; otherwise 1.7 times that estimate |
| AirQualityData.Pm10Factor | src/utils/fetchAirQualityData.js:50-55 | PM10 is 68 times the depth, which exceeds the PM2.5 estimate for every positive depth |
| AirQualityData.BreakpointsWellFormed | src/utils/fetchAirQualityData.js:62-69 | six bands; each has low < high and aqiLow < aqiHigh; the bands are ordered and disjoint; the index ranges are contiguous from 0 to 500 |
| AirQualityData.FindBand | src/utils/fetchAirQualityData.js:71-72 | the loop stops at the first band whose closed range holds the concentration, and finds none exactly when no band does |
| AirQualityData.Interpolate | src/utils/fetchAirQualityData.js:73-76 | the interpolation passes through both corners of the band: the low concentration gives aqiLow, and the high concentration gives aqiHigh |
| AirQualityData.InterpolateBounds | src/utils/fetchAirQualityData.js:73-76 | inside a band, the linear interpolation stays within the band's index range |
| AirQualityData.InterpolateMonotone | src/utils/fetchAirQualityData.js:73-76 | the interpolation never decreases |
| AirQualityData.InterpolateEndpoints | src/utils/fetchAirQualityData.js:73-76 | a band's endpoints interpolate exactly to its index bounds |
| AirQualityData.BandAqi | src/utils/fetchAirQualityData.js:73-76 | the rounded interpolation is an integer in the band's index range |
| AirQualityData.CalculateAqi | src/utils/fetchAirQualityData.js:58-81 | null exactly for a zero, null, undefined or NaN concentration; otherwise an integer in [0, 500] |
| AirQualityData.FindBandOf | src/utils/fetchAirQualityData.js:71-72 | a concentration inside band i is found in band i |
| AirQualityData.AqiInBand | src/utils/fetchAirQualityData.js:71-77 | inside band i, the index lies in that band's index range |
| AirQualityData.AqiAtEndpoints | src/utils/fetchAirQualityData.js:59-77 | band endpoints map exactly onto the index bounds, while 0 itself gives null |
| AirQualityData.AqiMonotoneInBand | src/utils/fetchAirQualityData.js:73-76 | within one band, a higher concentration never gives a lower index |
| AirQualityData.AqiOutsideTable | src/utils/fetchAirQualityData.js:80 | above 500.4 the index is 500; a negative concentration gives 0 |
| AirQualityData.AqiInGap | src/utils/fetchAirQualityData.js:71-80 | a concentration in the gap between two bands gives 0 |
| AirQualityData.AqiGapExample | src/utils/fetchAirQualityData.js:63-80 | 12.05 µg/m³ falls between the first two bands and gives 0 |
| AirQualityPage.ParseKey | src/pages/AirQuality.js:56-63 | a string names a category only if it is that category's key |
| AirQualityPage.KeyRoundTrip | src/pages/AirQuality.js:56-63 | keys and categories correspond one to one; any other string names no category |
| AirQualityPage.Severity | src/pages/AirQuality.js:56-63 | the categories are ranked 0 to 5 in the table's order |
| AirQualityPage.TablesShareKeys | src/pages/AirQuality.js:21-63 | the colour table and the range table have the same six keys, so every legend row finds its range |
| AirQualityPage.RangesContiguous | src/pages/AirQuality.js:56-63 | the ranges start at 0, end at 500, are each non-empty, and each starts one after the previous one ends |
| AirQualityPage.GetAqiCategory | src/pages/AirQuality.js:65-72 | good exactly when the index is at most 50; hazardous exactly when it is not at most 300 |
| AirQualityPage.CategoryBands | src/pages/AirQuality.js:66-71 | every number falls in exactly one category, and every upper bound is inclusive |
| AirQualityPage.CategoryOfNonNumbers | src/pages/AirQuality.js:65-72 | null classifies as good; undefined and NaN classify as hazardous |
| AirQualityPage.CategoryMonotone | src/pages/AirQuality.js:65-72 | a higher index is never in a milder category |
| AirQualityPage.CategoryMatchesRanges | src/pages/AirQuality.js:56-72 | on the integers 0 to 500, the category function and the range table agree exactly |
| AirQualityPage.BandCategory | src/pages/AirQuality.js:65-72 | an index computed from PM2.5 band i falls in the i-th category, so the breakpoint table and the categories line up |
| AirQualityPage.PageCategory | src/pages/AirQuality.js:145-148 | a loaded reading gets a category and that category's colour entry; with no reading there is neither |
| AirQualityPage.GetAqiIcon | src/pages/AirQuality.js:74-91 | a string that names no category gets the default icon |
| AirQualityPage.IconCases | src/pages/AirQuality.js:74-91 | the six categories get six different icons, none of them the default; the default is used exactly for other strings |
| AirQualityPage.GetHealthRecommendation | src/pages/AirQuality.js:385-402 | the fallback advice is returned exactly for strings that name no category |
| AirQualityPage.AdviceCases | src/pages/AirQuality.js:385-402 | the six categories get six different pieces of advice, none of them the fallback text; the fallback is used exactly for strings that name no category |
| AirQualityMap.MapColorsMatchPage | src/components/AirQualityMap.js:14-21 | the map's colour table is the page's colour column, key for key |
| AirQualityMap.MarkerColor | src/components/AirQualityMap.js:24-30 | the colour is one of the six; it is hazardous exactly above 300 and good exactly when the index is not above 50 |
| AirQualityMap.MarkerMatchesPage | src/components/AirQualityMap.js:14-30 | for every number and for null, the marker colour is the page's colour for the same index's category |
| AirQualityMap.MarkerDivergesOnNaN | src/components/AirQualityMap.js:24-30 | for NaN and undefined the marker is green while the page says hazardous |
| AirQualityMap.MarkerRankIsSeverity | src/components/AirQualityMap.js:24-30 | for every number the marker colour ranks exactly as severe as the page category of the same index |
| AirQualityMap.MarkerMonotone | src/components/AirQualityMap.js:24-30 | a higher index never gets a milder colour: the rank of the marker colour (good 0 up to hazardous 5) does not fall as the index grows, and at both indices the marker shows the page colour of that index's category |
| AirQualityMap.SimulatedAqi | src/components/AirQualityMap.js:152-154 | a grid index is clamped into [0, 500]; it is NaN exactly when the base coerces to NaN |
| AirQualityMap.SimulatedNearBase | src/components/AirQualityMap.js:152-154 | for a base in [0, 500] and a variation in [-25, 25), the grid index is within 25 of the base; a null base acts as 0 |
| AirQualityMap.MapCenter | src/components/AirQualityMap.js:213 | each coordinate falls back separately to (12.0, 8.5) when it is missing |
| WeatherAnimations.ChooseAnimation | src/components/WeatherAnimations.js:454-481 | nothing is shown when animation is off or there is no data; very hot exactly when the temperature exceeds 35 |
| WeatherAnimations.AnimationOfNumbers | src/components/WeatherAnimations.js:464-481 | on numbers: very hot above 35; hot from 30 to 35; very windy below 30 with wind above 10; very wet below 30 with wind at most 10 and rain above 5; very comfortable for 20 ≤ T < 30, rain ≤ 2 and wind ≤ 8; otherwise nothing |
| WeatherAnimations.NoTemperature | src/components/WeatherAnimations.js:466-481 | without a usable temperature, neither hot animation nor the comfortable one is chosen, but wind still is |
| WeatherAnimations.EmptyWeather | src/components/WeatherAnimations.js:456-483 | an object with no fields shows nothing |
| ActivitySuggestions.Suggest | src/components/ActivitySuggestions.js:5-57 | the component renders nothing exactly when `mostLikely` is missing or has no keys |
| ActivitySuggestions.TemperatureRule | src/components/ActivitySuggestions.js:26-36 | a null, undefined or NaN temperature adds nothing |
| ActivitySuggestions.RainfallRule | src/components/ActivitySuggestions.js:38-43 | the rainfall rule adds entries exactly for a number above 5 |
| ActivitySuggestions.HumidityRule | src/components/ActivitySuggestions.js:45-50 | the humidity rule adds entries exactly for a number above 80 |
| ActivitySuggestions.WindRule | src/components/ActivitySuggestions.js:52-57 | the wind rule adds entries exactly for a number above 10 |
| ActivitySuggestions.TemperatureBands | src/components/ActivitySuggestions.js:27-35 | the lists for 20 to 30, above 35 and below 15; nothing exactly for 15 ≤ T < 20 and 30 < T ≤ 35 |
| ActivitySuggestions.RulesIndependent | src/components/ActivitySuggestions.js:26-57 | each rule reads only its own field, and the lists are concatenated in the order temperature, rainfall, humidity, wind |
| ActivitySuggestions.WhenCyclingAvoided | src/components/ActivitySuggestions.js:38-57 | cycling is to be avoided exactly when rain exceeds 5 or wind exceeds 10 |
| ActivitySuggestions.WhenPicnicAvoided | src/components/ActivitySuggestions.js:26-43 | a picnic is to be avoided exactly above 35, below 15, or with rain above 5 |
| ActivitySuggestions.WhenOutdoorSportsGood | src/components/ActivitySuggestions.js:26-36 | outdoor sports are suggested exactly from 20 to 30 degrees |
| ActivitySuggestions.NonNumbersAddNothing | src/components/ActivitySuggestions.js:26-57 | an object whose fields are all null, undefined or NaN suggests nothing in either list |
| ActivitySuggestions.Displayed | src/components/ActivitySuggestions.js:78-84 | the displayed lists have no repeats and hold exactly the activities pushed |
| ActivitySuggestions.DisplayedOrder | src/components/ActivitySuggestions.js:78-84 | the displayed lists keep the order of first occurrence |
| Sequences.Dedupe | src/components/ActivitySuggestions.js:78 | a Set built from a list has no repeats and the same members |
| Sequences.DedupeKeepsFirstOccurrenceOrder | src/components/ActivitySuggestions.js:78 | a Set built from a list keeps each element at its first occurrence |
| Sequences.DedupeOfNoDup | src/components/ActivitySuggestions.js:78 | a list without repeats comes through a Set unchanged |
| VariableSelector.Toggle | src/components/VariableSelector.js:23-25 | after a click, v is selected exactly when it was not before, and every other variable keeps its membership |
| VariableSelector.ToggleAppends | src/components/VariableSelector.js:24 | selecting an absent variable appends it at the end, one longer |
| VariableSelector.ToggleRemovesInPlace | src/components/VariableSelector.js:24 | deselecting cuts the variable out, and the others keep their relative order |
| VariableSelector.ToggleTwice | src/components/VariableSelector.js:24 | two clicks on an unselected variable restore the selection |
| VariableSelector.ToggleKeepsNoDup | src/components/VariableSelector.js:24 | a selection without repeats stays without repeats |
| Sequences.RemoveAll | src/components/VariableSelector.js:24 | `filter` removes every occurrence of v, and keeps the count of every other element |
| VariableSelector.Pressed | src/components/VariableSelector.js:2-32 | there is one pressed state per option button |
| VariableSelector.ClickFlipsOneButton | src/components/VariableSelector.js:17-32 | a click flips that button's pressed state and leaves every other button's state alone |
| ThresholdSelector.HandleChange | src/components/ThresholdSelector.js:2-7 | the key set gains only the edited variable; every other entry is unchanged; the stored value is always a number, never NaN |
| ThresholdSelector.Stored | src/components/ThresholdSelector.js:5 | the stored value is always a number: the `parseFloat` result when that is a number, and 0 when it is NaN |
| ThresholdSelector.StoredValue | src/components/ThresholdSelector.js:5 | parseable input stores the parsed number; unparseable input stores 0 |
| ThresholdSelector.StoredExamples | src/components/ThresholdSelector.js:5 | typing an integer stores that integer; an empty input stores 0; "12px" stores 12 |
| ThresholdSelector.LastChangeWins | src/components/ThresholdSelector.js:3-6 | a second change to the same input replaces the first |
| ThresholdSelector.ChangesCommute | src/components/ThresholdSelector.js:3-6 | changes to two different inputs commute |
| Decimal.ParseFloat | src/components/ThresholdSelector.js:5 | `parseFloat` gives a number or NaN, and NaN exactly when no decimal prefix follows the leading white space |
| Decimal.ParseFloatOfNatToString | src/components/ThresholdSelector.js:5 | `parseFloat` reads a written non-negative integer back as itself |
| Decimal.NumberOf | src/pages/Dashboard.js:197 | `Number` gives a number or NaN; blank text is 0; whenever it reads a non-blank literal, `parseFloat` reads the same number |
| Decimal.NumberOfNatToString | src/pages/Dashboard.js:197 | `Number` reads a written non-negative integer back as itself |
| Decimal.ScanIntegerPrefix | src/components/ThresholdSelector.js:5 | `parseFloat` stops at the first character that cannot continue the literal |
| Decimal.ParseFloatAndNumberDiffer | src/pages/Dashboard.js:197 | `parseFloat` keeps "12" of "12px", which `Number` rejects; `Number("")` is 0, while `parseFloat("")` is NaN |
| JsValues.Round | src/utils/fetchAirQualityData.js:73 | `Math.round` gives the unique integer in (x - 1/2, x + 1/2], so halves round up |
| JsValues.Clamp | src/components/AirQualityMap.js:154 | the clamp lies in [lo, hi]; it is the identity inside the interval and the nearer bound outside |

## Left out

- The network requests to the weather API, Giovanni and Nominatim are left out; the decoded weather response is an input, and a failed request is the input "no response". `fetchAirQualityData` and `fetchAirQualityDataMultiple` assemble records from such requests, and so are also not modelled beyond `aodToPM25`, `aodToPM10` and `calculateAQI`.
- The clock and randomness are left out: `getDateRange`, the mock fallback data, and the grid's `Math.random` variation (an input of `SimulatedAqi`).
- Date parsing with `new Date(...)`, time zones and dayjs are left out; the selected date enters as year, month and day fields.
- Floating-point exactness is left out: numbers are reals, so rounding error in `* 9 / 5`, `/ 3.6` and the like is not modelled.
- `toFixed` formatting and the text of the dashboard's summary string are left out. The summary's throw on a variable without a threshold entry is modelled.
- The grid loop of the map overlay is left out; its float step accumulation decides how many points there are.
- React rendering, framer-motion, Leaflet, recharts, routing, the location search and the mock sign-in are user-interface and library bindings, and are left out.
- `parseFloat` and `Number` are modelled only for plain decimal literals: an optional sign, digits, an optional point and digits. Exponents, `Infinity`, the `0x`, `0b` and `0o` prefixes that `Number` accepts, and non-ASCII white space are not modelled.
- Object keys are plain strings in the model; inherited prototype properties (a variable named `toString`, say) are not modelled.
- The dashboard's threshold entry for a variable is a record of an optional value and an optional unit. An entry missing entirely (`thresholds[v]?.value`) reads as undefined.
- AirQualityPage.GetHealthRecommendation returns which advice is shown, and `AdviceText` holds the six texts. The distinctness and fallback facts are proved on the advice, not by comparing the long strings.
- ActivitySuggestions.WhenCyclingAvoided, WhenPicnicAvoided and WhenOutdoorSportsGood characterise three activities by condition. The other activities follow from the rule functions and `TemperatureBands`, and no lemma of their own states them.
