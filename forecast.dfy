/** The hourly forecast record of the NOAA API, as the Python, TypeScript and
    JavaScript versions read it. */
module Forecast {
  import opened Wrappers

  /** One entry of `properties.periods`, restricted to the fields the decision
      logic reads. `precipitation` is `probabilityOfPrecipitation.value`, which
      the API may send as `null`; timestamps are opaque strings. */
  datatype Period = Period(
    number: int,
    name: string,
    startTime: string,
    endTime: string,
    isDaytime: bool,
    temperature: int,
    precipitation: Option<int>,
    windSpeed: string)

  /** The number a JavaScript relational operator (`<`) sees for a possibly
      null precipitation value: `null` converts to 0. */
  function JsNumber(value: Option<int>): int
  {
    match value
    case Some(v) => v
    case None => 0
  }
}
