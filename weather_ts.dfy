/** weather.ts: read a low and a high wind speed from each descriptor, then
    keep the daytime, mild, dry, calm hours as records, without merging. */
module WeatherTs {
  import opened Wrappers
  import opened Seqs
  import opened Text
  import opened Forecast

  // ---------------------------------------------------------------------------
  // parseWindSpeed
  // ---------------------------------------------------------------------------

  datatype WindRange = WindRange(low: nat, high: nat)

  /** The group of `/^(?<mph>\d+) mph$/`: the whole string is a digit run
      followed by " mph" (a JavaScript `$` without the `m` flag only matches at
      the very end). */
  function SingleGroup(s: string): (d: Option<string>)
    ensures d.Some? ==> IsDigits(d.value) && s == d.value + " mph"
  {
    var n := |s| - 4;
    if n > 0 && s[n..] == " mph" && IsDigits(s[..n]) then
      assert s == s[..n] + " mph";
      Some(s[..n])
    else None
  }

  lemma SingleGroupComplete(d: string)
    requires IsDigits(d)
    ensures SingleGroup(d + " mph") == Some(d)
  {
    var s := d + " mph";
    assert s[..|d|] == d && s[|d|..] == " mph";
  }

  /** The groups of `/^(?<low>\d+) to (?<high>\d+) mph$/`. A digit run cannot
      extend over the space after it, so `low` is the whole leading digit run. */
  function RangeGroups(s: string): (g: Option<(string, string)>)
    ensures g.Some? ==> IsDigits(g.value.0) && IsDigits(g.value.1) && s == g.value.0 + " to " + g.value.1 + " mph"
  {
    var low := TakeWhile(s, IsDigit);
    var n := |low|;
    if low == [] || |s| < n + 4 || s[n..n + 4] != " to " then None
    else
      match SingleGroup(s[n + 4..])
      case Some(high) =>
        assert s == s[..n] + s[n..n + 4] + s[n + 4..];
        Some((low, high))
      case None => None
  }

  lemma RangeGroupsComplete(low: string, high: string)
    requires IsDigits(low) && IsDigits(high)
    ensures RangeGroups(low + " to " + high + " mph") == Some((low, high))
  {
    var s := low + " to " + high + " mph";
    var rest := " to " + high + " mph";
    assert s == low + rest;
    TakeWhileOf(low, rest, IsDigit);
    assert s[|low|..] == rest;
    assert rest[4..] == high + " mph";
    SingleGroupComplete(high);
  }

  /** parseWindSpeed: the range when the range pattern matches, else the
      single speed twice, else `{0, 0}` (the `|| "0"` fallback). `parseInt` of
      a digit run is its decimal value. */
  function ParseWindSpeed(windString: string): (r: WindRange)
    ensures r.low != r.high ==>
              exists low, high :: && IsDigits(low) && IsDigits(high)
                                  && windString == low + " to " + high + " mph"
                                  && r == WindRange(Value(low, 10), Value(high, 10))
    ensures r.high != 0 ==> |windString| > 4 && IsDigit(windString[0]) && windString[|windString| - 4..] == " mph"
  {
    match RangeGroups(windString)
    case Some((low, high)) =>
      assert windString[0] == low[0];
      assert windString[|windString| - 4..] == " mph";
      WindRange(Value(low, 10), Value(high, 10))
    case None =>
      match SingleGroup(windString)
      case Some(mph) => WindRange(Value(mph, 10), Value(mph, 10))
      case None => WindRange(0, 0)
  }

  /** A whole "X to Y mph" descriptor gives `{low: X, high: Y}`. */
  lemma ParseRange(low: string, high: string)
    requires IsDigits(low) && IsDigits(high)
    ensures ParseWindSpeed(low + " to " + high + " mph") == WindRange(Value(low, 10), Value(high, 10))
  {
    RangeGroupsComplete(low, high);
  }

  /** A whole "N mph" descriptor gives `{low: N, high: N}`. */
  lemma ParseSingle(mph: string)
    requires IsDigits(mph)
    ensures ParseWindSpeed(mph + " mph") == WindRange(Value(mph, 10), Value(mph, 10))
  {
    SingleGroupComplete(mph);
  }

  /** Any descriptor of neither shape counts as calm. */
  lemma ParseFallback(windString: string)
    requires forall low, high :: IsDigits(low) && IsDigits(high) ==> windString != low + " to " + high + " mph"
    requires forall mph :: IsDigits(mph) ==> windString != mph + " mph"
    ensures ParseWindSpeed(windString) == WindRange(0, 0)
  {
  }

  /** The numbers of "X to Y mph" written in decimal come back unchanged. */
  lemma ParseRangeOfNumbers(x: nat, y: nat)
    ensures ParseWindSpeed(ToDecimal(x) + " to " + ToDecimal(y) + " mph") == WindRange(x, y)
  {
    ToDecimalRoundTrip(x);
    ToDecimalRoundTrip(y);
    ParseRange(ToDecimal(x), ToDecimal(y));
  }

  // ---------------------------------------------------------------------------
  // filterWeather
  // ---------------------------------------------------------------------------

  /** The record pushed for a good hour. A null precipitation value is copied as null. */
  datatype GoodTime = GoodTime(
    day: string,
    startTime: string,
    endTime: string,
    temperature: int,
    probabilityOfPrecipitation: Option<int>,
    maxWindSpeed: nat)

  /** The condition of the `if` in filterWeather. */
  predicate GoodToBike(period: Period)
    ensures GoodToBike(period) ==> period.precipitation.None? || period.precipitation.value < 20
    ensures period.precipitation.None? ==>
              (GoodToBike(period) <==> && period.isDaytime && 50 < period.temperature < 80
                                       && ParseWindSpeed(period.windSpeed).high < 20)
    ensures RangeGroups(period.windSpeed).None? && SingleGroup(period.windSpeed).None? ==>
              (GoodToBike(period) <==> && period.isDaytime && 50 < period.temperature < 80
                                       && JsNumber(period.precipitation) < 20)
  {
    && period.isDaytime
    && period.temperature > 50
    && period.temperature < 80
    && JsNumber(period.precipitation) < 20
    && ParseWindSpeed(period.windSpeed).high < 20
  }

  function ToGoodTime(period: Period): GoodTime
  {
    GoodTime(period.name, period.startTime, period.endTime, period.temperature,
             period.precipitation, ParseWindSpeed(period.windSpeed).high)
  }

  /** The push loop over the API response. */
  method FilterWeather(apiResponse: seq<Period>) returns (goodTimesToBike: seq<GoodTime>)
    ensures goodTimesToBike == Map(Filter(apiResponse, GoodToBike), ToGoodTime)
  {
    goodTimesToBike := [];
    for i := 0 to |apiResponse|
      invariant goodTimesToBike == Map(Filter(apiResponse[..i], GoodToBike), ToGoodTime)
    {
      var period := apiResponse[i];
      FilterPrefix(apiResponse, i, GoodToBike);
      if period.isDaytime && period.temperature > 50 && period.temperature < 80 &&
         JsNumber(period.precipitation) < 20 && ParseWindSpeed(period.windSpeed).high < 20
      {
        MapSnoc(Filter(apiResponse[..i], GoodToBike), period, ToGoodTime);
        goodTimesToBike := goodTimesToBike + [GoodTime(period.name, period.startTime, period.endTime,
          period.temperature, period.precipitation, ParseWindSpeed(period.windSpeed).high)];
      } else {
        assert Filter(apiResponse[..i], GoodToBike) + [] == Filter(apiResponse[..i], GoodToBike);
      }
    }
    assert apiResponse[..|apiResponse|] == apiResponse;
  }

  /** The output never outgrows the input; every record comes from a good hour
      of the input and every good hour yields its record; each record copies
      the hour's fields and carries the parsed high speed below 20. */
  lemma FilterWeatherMeaning(apiResponse: seq<Period>)
    ensures |Map(Filter(apiResponse, GoodToBike), ToGoodTime)| <= |apiResponse|
    ensures forall period :: period in apiResponse && GoodToBike(period) ==>
              ToGoodTime(period) in Map(Filter(apiResponse, GoodToBike), ToGoodTime)
    ensures forall g :: g in Map(Filter(apiResponse, GoodToBike), ToGoodTime) ==>
              exists period :: period in apiResponse && GoodToBike(period) && g == ToGoodTime(period)
    ensures forall g :: g in Map(Filter(apiResponse, GoodToBike), ToGoodTime) ==>
              50 < g.temperature < 80 && JsNumber(g.probabilityOfPrecipitation) < 20 && g.maxWindSpeed < 20
  {
    var kept := Filter(apiResponse, GoodToBike);
    var out := Map(kept, ToGoodTime);
    forall period | period in apiResponse && GoodToBike(period)
      ensures ToGoodTime(period) in out
    {
      FilterMembers(apiResponse, GoodToBike, period);
      var j :| 0 <= j < |kept| && kept[j] == period;
      assert out[j] == ToGoodTime(period);
    }
    forall g | g in out
      ensures exists period :: period in apiResponse && GoodToBike(period) && g == ToGoodTime(period)
    {
      var j :| 0 <= j < |out| && out[j] == g;
      FilterMembers(apiResponse, GoodToBike, kept[j]);
    }
  }
}
