/**
 * The choice of celebration animation in `src/components/WeatherAnimations.js`:
 * a priority list of conditions on the most likely temperature, wind speed
 * and rainfall, of which the first that holds picks the animation.
 */
module WeatherAnimations {
  import opened Wrappers
  import opened JsValues

  datatype Animation = VeryHot | Hot | VeryWindy | VeryWet | VeryComfortable

  /**
   * `animationType` for the given switch and weather object (`None` when the
   * object is `null` or `undefined`). A field the object lacks reads as
   * `undefined`, which fails every comparison.
   */
  function ChooseAnimation(show: bool, weatherData: Option<map<string, JsNum>>): (r: Option<Animation>)
    ensures !show || weatherData.None? ==> r.None?
    ensures r == Some(VeryHot) <==> show && weatherData.Some? && Gt(Property(weatherData.value, "Temperature"), Num(35.0))
  {
    if !show || weatherData.None? then None
    else
      var data := weatherData.value;
      var t := Property(data, "Temperature");
      var rain := Property(data, "Rainfall");
      var wind := Property(data, "Wind Speed");
      if Gt(t, Num(35.0)) then Some(VeryHot)
      else if Ge(t, Num(30.0)) && Le(t, Num(35.0)) then Some(Hot)
      else if Gt(wind, Num(10.0)) then Some(VeryWindy)
      else if Gt(rain, Num(5.0)) then Some(VeryWet)
      else if Ge(t, Num(20.0)) && Le(t, Num(30.0)) && Le(rain, Num(2.0)) && Le(wind, Num(8.0)) then Some(VeryComfortable)
      else None
  }

  /** A weather object whose three fields are the numbers `t`, `rain` and `wind`. */
  function Weather(t: real, rain: real, wind: real): map<string, JsNum> {
    map["Temperature" := Num(t), "Rainfall" := Num(rain), "Wind Speed" := Num(wind)]
  }

  /**
   * On numbers the priority list is a partition of the plane of conditions:
   * above 35 very hot, from 30 to 35 hot, below 30 very windy when the wind
   * exceeds 10, otherwise very wet when the rain exceeds 5, otherwise very
   * comfortable from 20 up to (not including) 30 with rain at most 2 and
   * wind at most 8, and nothing in every remaining case.
   */
  lemma AnimationOfNumbers(t: real, rain: real, wind: real)
    ensures ChooseAnimation(true, Some(Weather(t, rain, wind))) == Some(VeryHot) <==> t > 35.0
    ensures ChooseAnimation(true, Some(Weather(t, rain, wind))) == Some(Hot) <==> 30.0 <= t <= 35.0
    ensures ChooseAnimation(true, Some(Weather(t, rain, wind))) == Some(VeryWindy) <==> t < 30.0 && wind > 10.0
    ensures ChooseAnimation(true, Some(Weather(t, rain, wind))) == Some(VeryWet) <==> t < 30.0 && wind <= 10.0 && rain > 5.0
    ensures ChooseAnimation(true, Some(Weather(t, rain, wind))) == Some(VeryComfortable)
      <==> 20.0 <= t < 30.0 && rain <= 2.0 && wind <= 8.0
    ensures ChooseAnimation(true, Some(Weather(t, rain, wind))).None?
      <==> t < 30.0 && wind <= 10.0 && rain <= 5.0 && !(20.0 <= t && rain <= 2.0 && wind <= 8.0)
  {
    var data := Weather(t, rain, wind);
    assert Property(data, "Temperature") == Num(t);
    assert Property(data, "Rainfall") == Num(rain);
    assert Property(data, "Wind Speed") == Num(wind);
  }

  /**
   * Without a usable temperature (absent, or NaN) neither hot animation nor
   * the comfortable one can be chosen, but wind and rain still count.
   */
  lemma NoTemperature(data: map<string, JsNum>)
    requires ToNumeric(Property(data, "Temperature")).NaN?
    ensures ChooseAnimation(true, Some(data)) != Some(VeryHot)
    ensures ChooseAnimation(true, Some(data)) != Some(Hot)
    ensures ChooseAnimation(true, Some(data)) != Some(VeryComfortable)
    ensures ChooseAnimation(true, Some(data)) == Some(VeryWindy) <==> Gt(Property(data, "Wind Speed"), Num(10.0))
  {
  }

  /** An empty weather object (no field at all) shows nothing. */
  lemma EmptyWeather()
    ensures ChooseAnimation(true, Some(map[])).None?
  {
  }
}
