/**
 * The climate summariser: a year of daily observations from the archive
 * response is reduced to the annual mean temperature, the annual mean
 * humidity and the annual rainfall (process_weather_response,
 * app_logic.py:64-91). The HTTP call that produces the response is not
 * part of this module.
 */
module Weather {
  import opened Wrappers

  /** The `daily` section of a response; a series the payload lacks is None. */
  datatype DailySection = DailySection(
    temperatureMean: Option<seq<real>>,   // temperature_2m_mean
    humidityMean: Option<seq<real>>,      // relative_humidity_2m_mean
    precipitationSum: Option<seq<real>>)  // precipitation_sum

  /** A decoded response; an empty payload has no `daily` section either. */
  datatype Response = Response(daily: Option<DailySection>)

  /** The annual summary: the `weather` entry of the result. */
  datatype AnnualWeather = AnnualWeather(temperature: real, humidity: real, rainfall: real)

  /** np.sum over the series. */
  function Sum(s: seq<real>): real
  {
    if s == [] then 0.0 else Sum(s[..|s| - 1]) + s[|s| - 1]
  }

  /** np.mean over a non-empty series: the value that, once per day, adds up to the total. */
  function Mean(s: seq<real>): (r: real)
    requires s != []
    ensures r * |s| as real == Sum(s)
  {
    Sum(s) / |s| as real
  }

  /** Python truthiness of a series: present and non-empty. */
  predicate Usable(series: Option<seq<real>>)
  {
    series.Some? && series.value != []
  }

  /**
   * The summary is refused exactly when the response is missing, lacks
   * `daily`, or any of the three series is missing or empty; otherwise it
   * holds the two means and the total.
   */
  function ProcessWeatherResponse(response: Option<Response>): (r: Option<AnnualWeather>)
    ensures r.None? <==>
      || response.None?
      || response.value.daily.None?
      || !Usable(response.value.daily.value.temperatureMean)
      || !Usable(response.value.daily.value.humidityMean)
      || !Usable(response.value.daily.value.precipitationSum)
    ensures r.Some? ==>
      var daily := response.value.daily.value;
      r.value == AnnualWeather(Mean(daily.temperatureMean.value), Mean(daily.humidityMean.value),
                               Sum(daily.precipitationSum.value))
  {
    if response.None? || response.value.daily.None? then None
    else
      var daily := response.value.daily.value;
      if !Usable(daily.temperatureMean) || !Usable(daily.humidityMean) || !Usable(daily.precipitationSum)
      then None
      else Some(AnnualWeather(Mean(daily.temperatureMean.value), Mean(daily.humidityMean.value),
                              Sum(daily.precipitationSum.value)))
  }

  /** A total of n values that all lie in [lo, hi] lies in [n*lo, n*hi]. */
  lemma {:induction false} SumBounds(s: seq<real>, lo: real, hi: real)
    requires forall i :: 0 <= i < |s| ==> lo <= s[i] <= hi
    ensures |s| as real * lo <= Sum(s) <= |s| as real * hi
  {
    if s != [] {
      SumBounds(s[..|s| - 1], lo, hi);
    }
  }

  /** The mean of a series lies between any lower and upper bound of its values. */
  lemma MeanBounds(s: seq<real>, lo: real, hi: real)
    requires s != []
    requires forall i :: 0 <= i < |s| ==> lo <= s[i] <= hi
    ensures lo <= Mean(s) <= hi
  {
    SumBounds(s, lo, hi);
    var n := |s| as real;
    DivideBetween(n, lo, Sum(s), hi);
  }

  /** n*lo <= x <= n*hi gives lo <= x/n <= hi for positive n. */
  lemma DivideBetween(n: real, lo: real, x: real, hi: real)
    requires n > 0.0 && n * lo <= x <= n * hi
    ensures lo <= x / n <= hi
  {
  }

  lemma DivideBound(x: real, y: real, n: real)
    requires n > 0.0 && x <= y
    ensures x / n <= y / n
  {
  }

  /**
   * The annual summary stays within the daily extremes: the mean
   * temperature and humidity lie within any bounds on the daily values, and
   * the rainfall is not negative when no day records negative rain.
   */
  lemma SummaryWithinDailyRange(response: Option<Response>, tLo: real, tHi: real, hLo: real, hHi: real)
    requires ProcessWeatherResponse(response).Some?
    requires var d := response.value.daily.value;
      && (forall i :: 0 <= i < |d.temperatureMean.value| ==> tLo <= d.temperatureMean.value[i] <= tHi)
      && (forall i :: 0 <= i < |d.humidityMean.value| ==> hLo <= d.humidityMean.value[i] <= hHi)
      && (forall i :: 0 <= i < |d.precipitationSum.value| ==> 0.0 <= d.precipitationSum.value[i])
    ensures var w := ProcessWeatherResponse(response).value;
      tLo <= w.temperature <= tHi && hLo <= w.humidity <= hHi && 0.0 <= w.rainfall
  {
    var d := response.value.daily.value;
    MeanBounds(d.temperatureMean.value, tLo, tHi);
    MeanBounds(d.humidityMean.value, hLo, hHi);
    NonNegativeSum(d.precipitationSum.value);
  }

  /** A rainfall total of days without negative rainfall is not negative. */
  lemma {:induction false} NonNegativeSum(s: seq<real>)
    requires forall i :: 0 <= i < |s| ==> 0.0 <= s[i]
    ensures 0.0 <= Sum(s)
  {
    if s != [] {
      NonNegativeSum(s[..|s| - 1]);
    }
  }

  /** A year of identical days has that value as its mean. */
  lemma ConstantSeriesMean(s: seq<real>, c: real)
    requires s != [] && forall i :: 0 <= i < |s| ==> s[i] == c
    ensures Mean(s) == c
  {
    MeanBounds(s, c, c);
  }
}
