/**
 * The estimation pipeline (get_estimated_profit_and_loan,
 * app_logic.py:93-215): pincode to coordinates, coordinates to a year of
 * weather, weather to an annual summary, summary to ranked crops, ranked
 * crops to an allocation ratio, and ratio to profit, cost and loan. The
 * weather archive request and the trained classifier are parameters.
 */
module Estimator {
  import opened Wrappers
  import opened Pincodes
  import opened Weather
  import opened Ranking
  import opened Ratio
  import opened Finance

  /** Why the pipeline stopped: the `error` entry of the result. */
  datatype Failure =
    | PincodeNotFound(pincode: int)        // no table row carries the pincode
    | WeatherUnavailable(pincode: int)     // the weather fetch returned nothing
    | WeatherUnprocessable(pincode: int)   // the response could not be summarised

  /** The financial entries of a result. */
  datatype Financials = Financials(estimatedProfit: real, estimatedCostOfProduction: real, estimatedLoanAmount: real)

  /** The outcome of one estimation request. */
  datatype Estimate =
    | Error(reason: Failure)
    | Ok(weather: AnnualWeather, topCrops: seq<ClassScore>, cropRatio: RatioLabel,
         financials: Option<Financials>, estimationMessage: Option<string>)
      // ZeroDivisionError raised when both per-mille scores are 0 (math.gcd(0, 0) == 0)
    | DivisionByZero

  const LandAreaMessage: string := "Please enter a valid land area to estimate profit and loan amount."

  /** The first three stages, each stopping at its own failure; a summary needs a known pincode. */
  function ClimateFor(pincode: int, pincodes: seq<LocationRecord>,
                      fetchWeather: (real, real) -> Option<Response>): (r: Option<AnnualWeather>)
    ensures r.Some? ==> exists j :: 0 <= j < |pincodes| && pincodes[j].pincode == pincode
  {
    match LatLonFromPincode(pincode, pincodes)
    case None => None
    case Some(loc) =>
      var data := fetchWeather(loc.0, loc.1);
      if data.None? then None else ProcessWeatherResponse(data)
  }

  /**
   * The failure the first three stages report, when they do not produce a
   * summary: it names the pincode, and is "not found" exactly when no row
   * of the table carries it.
   */
  function ClimateFailure(pincode: int, pincodes: seq<LocationRecord>,
                          fetchWeather: (real, real) -> Option<Response>): (f: Failure)
    ensures f.pincode == pincode
    ensures f.PincodeNotFound? <==> forall j :: 0 <= j < |pincodes| ==> pincodes[j].pincode != pincode
  {
    NotFoundIffAbsent(pincode, pincodes);
    match LatLonFromPincode(pincode, pincodes)
    case None => PincodeNotFound(pincode)
    case Some(loc) =>
      if fetchWeather(loc.0, loc.1).None? then WeatherUnavailable(pincode) else WeatherUnprocessable(pincode)
  }

  /**
   * One estimation request: each stage runs only when the previous one
   * succeeded, and the result is filled in the order the stages run.
   */
  method EstimateProfitAndLoan(pincode: int, landArea: real,
                               pincodes: seq<LocationRecord>,
                               fetchWeather: (real, real) -> Option<Response>,
                               predict: AnnualWeather -> seq<ClassScore>,
                               economics: seq<CropEconomics>) returns (r: Estimate)
    // Stages 1-3 stop at the first failure and report only that failure.
    ensures r.Error? <==> ClimateFor(pincode, pincodes, fetchWeather).None?
    ensures r.Error? ==> r.reason == ClimateFailure(pincode, pincodes, fetchWeather)
    // A division by zero happens only for a ranking whose ratio has a zero gcd.
    ensures r.DivisionByZero? ==>
      var scored := predict(ClimateFor(pincode, pincodes, fetchWeather).value);
      exists top :: IsTopCrops(scored, top) && SimplifiedRatio(top).GcdOfZeros?
    // Otherwise: the summary, the ranked crops, their ratio, and either the totals or the message.
    ensures r.Ok? ==>
      && ClimateFor(pincode, pincodes, fetchWeather) == Some(r.weather)
      && IsTopCrops(predict(r.weather), r.topCrops)
      && var ratio := SimplifiedRatio(r.topCrops);
      && ratio.Simplified?
      && r.cropRatio == ratio.display
      && (landArea > 0.0 <==> r.financials.Some?)
      && (landArea > 0.0 <==> r.estimationMessage.None?)
      && (landArea <= 0.0 ==> r.estimationMessage == Some(LandAreaMessage))
      && (landArea > 0.0 ==>
            var totals := Accumulated(r.topCrops, economics, ratio.num, ratio.den, landArea, |r.topCrops|);
            r.financials.value == Financials(totals.profit, totals.cost, totals.cost * LoanPercentage))
  {
    // 1. Pincode to coordinates.
    var location := LatLonFromPincode(pincode, pincodes);
    if location.None? {
      return Error(PincodeNotFound(pincode));
    }
    var (latitude, longitude) := location.value;

    // 2. One year of weather.
    var weatherData := fetchWeather(latitude, longitude);
    if weatherData.None? {
      return Error(WeatherUnavailable(pincode));
    }

    // 3. The annual summary.
    var summary := ProcessWeatherResponse(weatherData);
    if summary.None? {
      return Error(WeatherUnprocessable(pincode));
    }
    var weather := summary.value;
    r := EstimateForClimate(weather, landArea, predict, economics);
  }

  /**
   * Stages 5-9 of a request, once the annual summary is known: the ranked
   * crops, their ratio, and either the financial figures or the guidance
   * message. Only the division by a zero gcd stops it.
   */
  method EstimateForClimate(weather: AnnualWeather, landArea: real,
                            predict: AnnualWeather -> seq<ClassScore>,
                            economics: seq<CropEconomics>) returns (r: Estimate)
    ensures !r.Error?
    ensures r.DivisionByZero? ==> exists top :: IsTopCrops(predict(weather), top) && SimplifiedRatio(top).GcdOfZeros?
    ensures r.Ok? ==>
      && r.weather == weather
      && IsTopCrops(predict(weather), r.topCrops)
      && var ratio := SimplifiedRatio(r.topCrops);
      && ratio.Simplified?
      && r.cropRatio == ratio.display
      && (landArea > 0.0 <==> r.financials.Some?)
      && (landArea > 0.0 <==> r.estimationMessage.None?)
      && (landArea <= 0.0 ==> r.estimationMessage == Some(LandAreaMessage))
      && (landArea > 0.0 ==>
            var totals := Accumulated(r.topCrops, economics, ratio.num, ratio.den, landArea, |r.topCrops|);
            r.financials.value == Financials(totals.profit, totals.cost, totals.cost * LoanPercentage))
  {
    // 5-6. The classifier's scores and the two best crops.
    var scored := predict(weather);
    var topIndices := TopTwo(scored);
    var topCrops := Pick(scored, topIndices);

    // 7. The simplified ratio.
    var ratio := SimplifyRatio(topCrops);
    PickedAreTopCrops(scored, topIndices);
    if ratio.GcdOfZeros? {
      return DivisionByZero;
    }

    // 8-9. Profit, cost and loan.
    if landArea > 0.0 {
      var estimatedTotalProfit, estimatedTotalCost := AccumulateTotals(topCrops, economics, ratio.num, ratio.den, landArea);
      var estimatedLoan := estimatedTotalCost * LoanPercentage;
      r := Ok(weather, topCrops, ratio.display,
              Some(Financials(estimatedTotalProfit, estimatedTotalCost, estimatedLoan)), None);
    } else {
      r := Ok(weather, topCrops, ratio.display, None, Some(LandAreaMessage));
    }
  }
}
