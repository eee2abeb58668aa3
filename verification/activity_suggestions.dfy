/**
 * The activity table of `src/components/ActivitySuggestions.js`: four
 * independent rules, on temperature, rainfall, humidity and wind, each
 * adding fixed activities to a "good for" and an "avoid" list, and the
 * de-duplicated lists that are displayed.
 */
module ActivitySuggestions {
  import opened Wrappers
  import opened JsValues
  import opened Sequences

  /** The two lists a rule contributes to, in push order. */
  datatype Lists = Lists(good: seq<string>, avoid: seq<string>)

  const NoLists: Lists := Lists([], [])

  function Join(a: Lists, b: Lists): Lists {
    Lists(a.good + b.good, a.avoid + b.avoid)
  }

  /**
   * The temperature rule: comfortable from 20 to 30, hot above 35, cold
   * below 15; `null` and `undefined` are skipped by `!= null`, and NaN fails
   * every band.
   */
  function TemperatureRule(t: JsNum): (l: Lists)
    ensures !t.Num? ==> l == NoLists
  {
    if IsNullish(t) then NoLists
    else if Ge(t, Num(20.0)) && Le(t, Num(30.0)) then
      Lists(["Outdoor sports", "Picnic", "Walking", "Cycling"], [])
    else if Gt(t, Num(35.0)) then
      Lists(["Swimming", "Indoor gym"], ["Outdoor sports", "Long walking", "Picnic"])
    else if Lt(t, Num(15.0)) then
      Lists(["Indoor activities", "Reading", "Cooking at home"], ["Picnic", "Swimming"])
    else NoLists
  }

  /** The rainfall rule: more than 5 mm. */
  function RainfallRule(rain: JsNum): (l: Lists)
    ensures l != NoLists <==> rain.Num? && rain.x > 5.0
  {
    if IsNullish(rain) then NoLists
    else if Gt(rain, Num(5.0)) then
      Lists(["Indoor games", "Watching movies"], ["Picnic", "Cycling", "Outdoor farming"])
    else NoLists
  }

  /** The humidity rule: more than 80 %. */
  function HumidityRule(humidity: JsNum): (l: Lists)
    ensures l != NoLists <==> humidity.Num? && humidity.x > 80.0
  {
    if IsNullish(humidity) then NoLists
    else if Gt(humidity, Num(80.0)) then
      Lists(["Indoor rest", "Light reading"], ["Running", "Outdoor heavy exercise"])
    else NoLists
  }

  /** The wind rule: more than 10 m/s. */
  function WindRule(wind: JsNum): (l: Lists)
    ensures l != NoLists <==> wind.Num? && wind.x > 10.0
  {
    if IsNullish(wind) then NoLists
    else if Gt(wind, Num(10.0)) then
      Lists(["Kite flying"], ["Flying drones", "Cycling", "Boating"])
    else NoLists
  }

  /**
   * The lists built for `mostLikely`: nothing (the component renders
   * nothing) when it is missing or has no keys, otherwise the four rules'
   * contributions in the order temperature, rainfall, humidity, wind.
   */
  function Suggest(mostLikely: Option<map<string, JsNum>>): (r: Option<Lists>)
    ensures r.None? <==> mostLikely.None? || |mostLikely.value.Keys| == 0
  {
    match mostLikely
    case None => None
    case Some(m) =>
      if |m.Keys| == 0 then None
      else
        Some(Join(Join(Join(TemperatureRule(Property(m, "Temperature")),
                            RainfallRule(Property(m, "Rainfall"))),
                       HumidityRule(Property(m, "Humidity"))),
                  WindRule(Property(m, "Wind Speed"))))
  }

  /** `Array.from(new Set(list))` of both lists, as they are displayed. */
  function Displayed(l: Lists): (d: Lists)
    ensures NoDup(d.good) && NoDup(d.avoid)
    ensures forall a :: a in d.good <==> a in l.good
    ensures forall a :: a in d.avoid <==> a in l.avoid
  {
    Lists(Dedupe(l.good), Dedupe(l.avoid))
  }

  /** The displayed lists keep each activity at its first position in push order. */
  lemma DisplayedOrder(l: Lists)
    ensures forall i, j :: 0 <= i < j < |Displayed(l).good| ==>
      FirstIndex(l.good, Displayed(l).good[i]) < FirstIndex(l.good, Displayed(l).good[j])
    ensures forall i, j :: 0 <= i < j < |Displayed(l).avoid| ==>
      FirstIndex(l.avoid, Displayed(l).avoid[i]) < FirstIndex(l.avoid, Displayed(l).avoid[j])
  {
    DedupeKeepsFirstOccurrenceOrder(l.good);
    DedupeKeepsFirstOccurrenceOrder(l.avoid);
  }

  /** The temperature bands; 15 to 20 and above 30 up to 35 add nothing. */
  lemma TemperatureBands(t: real)
    ensures 20.0 <= t <= 30.0 ==>
      TemperatureRule(Num(t)) == Lists(["Outdoor sports", "Picnic", "Walking", "Cycling"], [])
    ensures t > 35.0 ==>
      TemperatureRule(Num(t)) == Lists(["Swimming", "Indoor gym"], ["Outdoor sports", "Long walking", "Picnic"])
    ensures t < 15.0 ==>
      TemperatureRule(Num(t)) == Lists(["Indoor activities", "Reading", "Cooking at home"], ["Picnic", "Swimming"])
    ensures TemperatureRule(Num(t)) == NoLists <==> 15.0 <= t < 20.0 || 30.0 < t <= 35.0
  {
  }

  /** A weather object whose four fields are the given numbers. */
  function Conditions(t: real, rain: real, humidity: real, wind: real): map<string, JsNum> {
    map["Temperature" := Num(t), "Rainfall" := Num(rain), "Humidity" := Num(humidity), "Wind Speed" := Num(wind)]
  }

  /**
   * Each rule sees only its own field: the lists for four numbers are the
   * four rules' contributions, whatever the other fields hold.
   */
  lemma RulesIndependent(t: real, rain: real, humidity: real, wind: real)
    ensures Suggest(Some(Conditions(t, rain, humidity, wind))) ==
      Some(Join(Join(Join(TemperatureRule(Num(t)), RainfallRule(Num(rain))), HumidityRule(Num(humidity))), WindRule(Num(wind))))
  {
    var m := Conditions(t, rain, humidity, wind);
    assert "Temperature" in m.Keys;
    assert Property(m, "Temperature") == Num(t);
    assert Property(m, "Rainfall") == Num(rain);
    assert Property(m, "Humidity") == Num(humidity);
    assert Property(m, "Wind Speed") == Num(wind);
  }

  /** Cycling is to be avoided exactly when it rains more than 5 or blows more than 10. */
  lemma WhenCyclingAvoided(t: real, rain: real, humidity: real, wind: real)
    ensures "Cycling" in Suggest(Some(Conditions(t, rain, humidity, wind))).value.avoid <==> rain > 5.0 || wind > 10.0
  {
    RulesIndependent(t, rain, humidity, wind);
    assert "Cycling" !in TemperatureRule(Num(t)).avoid;
    assert "Cycling" !in HumidityRule(Num(humidity)).avoid;
    assert "Cycling" in RainfallRule(Num(rain)).avoid <==> rain > 5.0;
    assert "Cycling" in WindRule(Num(wind)).avoid <==> wind > 10.0;
  }

  /** A picnic is to be avoided exactly when it is hotter than 35, colder than 15 or rains more than 5. */
  lemma WhenPicnicAvoided(t: real, rain: real, humidity: real, wind: real)
    ensures "Picnic" in Suggest(Some(Conditions(t, rain, humidity, wind))).value.avoid <==> t > 35.0 || t < 15.0 || rain > 5.0
  {
    RulesIndependent(t, rain, humidity, wind);
    TemperatureBands(t);
    assert "Picnic" in TemperatureRule(Num(t)).avoid <==> t > 35.0 || t < 15.0;
    assert "Picnic" !in HumidityRule(Num(humidity)).avoid;
    assert "Picnic" in RainfallRule(Num(rain)).avoid <==> rain > 5.0;
    assert "Picnic" !in WindRule(Num(wind)).avoid;
  }

  /** Outdoor sports are suggested exactly from 20 to 30 degrees. */
  lemma WhenOutdoorSportsGood(t: real, rain: real, humidity: real, wind: real)
    ensures "Outdoor sports" in Suggest(Some(Conditions(t, rain, humidity, wind))).value.good <==> 20.0 <= t <= 30.0
  {
    RulesIndependent(t, rain, humidity, wind);
    TemperatureBands(t);
    assert "Outdoor sports" in TemperatureRule(Num(t)).good <==> 20.0 <= t <= 30.0;
    assert "Outdoor sports" !in RainfallRule(Num(rain)).good;
    assert "Outdoor sports" !in HumidityRule(Num(humidity)).good;
    assert "Outdoor sports" !in WindRule(Num(wind)).good;
  }

  /** A field that is `null`, `undefined` or NaN adds nothing, so a map of such fields suggests nothing. */
  lemma NonNumbersAddNothing(m: map<string, JsNum>)
    requires |m.Keys| > 0
    requires forall k :: k in m ==> !m[k].Num?
    ensures Suggest(Some(m)) == Some(NoLists)
  {
  }
}
