/** weather.py: parse every wind descriptor (aborting on the first one that does
    not match), then sort daytime, dry hours into a "good" and a "chilly" list,
    merging each hour into the last block of its list when they touch. */
module WeatherPy {
  import opened Wrappers
  import opened Seqs
  import opened Text
  import opened Runs
  import opened Forecast

  // ---------------------------------------------------------------------------
  // Wind descriptor: re.match(r"(?P<high>\d+) mph$", windSpeed)
  // ---------------------------------------------------------------------------

  /** The `high` group when the pattern matches. `re.match` anchors the digits
      at the start of the string, and `$` accepts the very end or a single
      newline ending the string. */
  function WindGroup(s: string): (d: Option<string>)
    ensures d.Some? ==> IsDigits(d.value) && (s == d.value + " mph" || s == d.value + " mph\n")
  {
    if |s| >= 4 && s[|s| - 4..] == " mph" && IsDigits(s[..|s| - 4]) then Some(s[..|s| - 4])
    else if |s| >= 5 && s[|s| - 5..] == " mph\n" && IsDigits(s[..|s| - 5]) then Some(s[..|s| - 5])
    else None
  }

  /** Every `<digits> mph` descriptor matches, with or without a final newline. */
  lemma WindGroupComplete(d: string)
    requires IsDigits(d)
    ensures WindGroup(d + " mph") == Some(d)
    ensures WindGroup(d + " mph\n") == Some(d)
  {
    var s := d + " mph";
    assert s[|s| - 4..] == " mph" && s[..|s| - 4] == d;
    var t := d + " mph\n";
    assert t[|t| - 4..] != " mph" by { assert t[|t| - 4] == 'm'; }
    assert t[|t| - 5..] == " mph\n" && t[..|t| - 5] == d;
  }

  /** A range descriptor never matches: the anchored digits must be followed
      directly by " mph". */
  lemma RangeDescriptorRejected(lo: string, hi: string)
    requires IsDigits(lo) && IsDigits(hi)
    ensures WindGroup(lo + " to " + hi + " mph") == None
  {
    var s := lo + " to " + hi + " mph";
    assert s[|lo|] == ' ';
    assert |s| >= 5 ==> s[|s| - 1] != '\n';
    assert !IsDigits(s[..|s| - 4]) by { assert s[..|s| - 4][|lo|] == ' '; }
  }

  /** `int(m["high"])`, or None when the descriptor does not match or its
      digits are more than `int` converts. */
  function ParsedWindSpeed(s: string): Option<nat>
  {
    match WindGroup(s)
    case None => None
    case Some(d) => if |d| <= MaxStrDigits then Some(Value(d, 10)) else None
  }

  /** A speed is read only from a whole `<digits> mph` descriptor, as the
      value of those digits. */
  lemma ParsedWindSpeedSound(s: string)
    ensures ParsedWindSpeed(s).Some? ==>
              exists d :: && IsDigits(d) && |d| <= MaxStrDigits && ParsedWindSpeed(s).value == Value(d, 10)
                          && (s == d + " mph" || s == d + " mph\n")
  {
  }

  /** Reading back a rendered speed gives the speed, up to the digit limit. */
  lemma ParsedWindSpeedRoundTrip(n: nat)
    ensures ParsedWindSpeed(ToDecimal(n) + " mph") == if |ToDecimal(n)| <= MaxStrDigits then Some(n) else None
  {
    ToDecimalRoundTrip(n);
    WindGroupComplete(ToDecimal(n));
  }

  /** A forecast hour after parsing: the dict with `parsedWindSpeed` added. */
  datatype Hourly = Hourly(period: Period, parsedWindSpeed: nat)

  /** Why the script stops with exit status 1 before sending anything. */
  datatype Abort =
    | UnparsedWindSpeed(descriptor: string)   // sys.exit(1) in weather_forecast
    | TooManyDigits(descriptor: string)       // `int(m["high"])` raises ValueError
    | MissingPrecipitation(startTime: string) // `None < 25` raises TypeError in main

  /** Why a descriptor whose speed cannot be read stops the run. */
  function WindAbort(s: string): Abort
  {
    if WindGroup(s).None? then UnparsedWindSpeed(s) else TooManyDigits(s)
  }

  predicate WindReadable(p: Period)
  {
    ParsedWindSpeed(p.windSpeed).Some?
  }

  /** The parse loop of `weather_forecast`: every period gets its parsed speed,
      or the run stops at the first descriptor that does not match or whose
      digits `int` refuses. */
  method ParseWindSpeeds(periods: seq<Period>) returns (r: Result<seq<Hourly>, Abort>)
    ensures r.Success? <==> forall i :: 0 <= i < |periods| ==> WindReadable(periods[i])
    ensures r.Success? ==> |r.value| == |periods|
    ensures r.Success? ==> forall i :: 0 <= i < |periods| ==>
              r.value[i] == Hourly(periods[i], ParsedWindSpeed(periods[i].windSpeed).value)
    ensures r.Failure? ==>
              exists i :: && 0 <= i < |periods| && !WindReadable(periods[i])
                          && r.error == WindAbort(periods[i].windSpeed)
                          && forall j :: 0 <= j < i ==> WindReadable(periods[j])
  {
    var parsed: seq<Hourly> := [];
    for i := 0 to |periods|
      invariant |parsed| == i
      invariant forall j :: 0 <= j < i ==> WindReadable(periods[j])
      invariant forall j :: 0 <= j < i ==> parsed[j] == Hourly(periods[j], ParsedWindSpeed(periods[j].windSpeed).value)
    {
      var w := ParsedWindSpeed(periods[i].windSpeed);
      if w.None? {
        return Failure(WindAbort(periods[i].windSpeed));
      }
      parsed := parsed + [Hourly(periods[i], w.value)];
    }
    return Success(parsed);
  }

  // ---------------------------------------------------------------------------
  // merge_append_forecast
  // ---------------------------------------------------------------------------

  /** The fields of an hourly forecast that merge_append_forecast reads. */
  datatype Reading = Reading(startTime: string, endTime: string, temperature: int, precipitation: int, windSpeed: nat)

  /** One entry of `good_time_periods` or `low_wind_periods`. */
  datatype Block = Block(
    startTime: string,
    endTime: string,
    temperature: int,
    probabilityOfPrecipitation: int,
    maxWindSpeed: int)

  /** A new block made from one hour's own values. */
  function Seed(r: Reading): Block
  {
    Block(r.startTime, r.endTime, r.temperature, r.precipitation, r.windSpeed)
  }

  /** The block that replaces `prev` when `r` runs on from it. */
  function Absorb(prev: Block, r: Reading): Block
  {
    Block(prev.startTime, r.endTime,
          Max2(r.temperature, prev.temperature),
          Max2(r.precipitation, prev.probabilityOfPrecipitation),
          Max2(r.windSpeed, prev.maxWindSpeed))
  }

  /** The list after one call of merge_append_forecast. */
  function MergeAppended(blocks: seq<Block>, r: Reading): seq<Block>
  {
    if |blocks| > 0 && Last(blocks).endTime == r.startTime then blocks[|blocks| - 1 := Absorb(Last(blocks), r)]
    else blocks + [Seed(r)]
  }

  /** What one call does: either exactly one new block seeded from the hour is
      appended (empty list, or the last block does not end where the hour
      starts), or the length stays and only the last block changes, keeping its
      start, taking the hour's end and the larger of each reading. */
  lemma MergeAppendedShape(blocks: seq<Block>, r: Reading)
    ensures var bs := MergeAppended(blocks, r);
      && (|bs| == |blocks| + 1 <==> blocks == [] || Last(blocks).endTime != r.startTime)
      && (|bs| == |blocks| + 1 ==> bs[..|blocks|] == blocks && Last(bs) == Seed(r))
      && (|bs| != |blocks| + 1 ==>
            && |bs| == |blocks|
            && bs[..|blocks| - 1] == blocks[..|blocks| - 1]
            && Last(bs).startTime == Last(blocks).startTime
            && Last(bs).endTime == r.endTime
            && Last(bs).temperature == Max2(Last(blocks).temperature, r.temperature)
            && Last(bs).probabilityOfPrecipitation == Max2(Last(blocks).probabilityOfPrecipitation, r.precipitation)
            && Last(bs).maxWindSpeed == Max2(Last(blocks).maxWindSpeed, r.windSpeed))
  {
  }

  /** A list of blocks that merge_append_forecast updates in place. */
  class TimePeriods {
    var blocks: seq<Block>

    constructor ()
      ensures blocks == []
    {
      blocks := [];
    }

    method MergeAppend(r: Reading)
      modifies this
      ensures blocks == MergeAppended(old(blocks), r)
    {
      if |blocks| > 0 && Last(blocks).endTime == r.startTime {
        var prev := Last(blocks);
        blocks := blocks[|blocks| - 1 := Block(prev.startTime, r.endTime,
                                               Max2(r.temperature, prev.temperature),
                                               Max2(r.precipitation, prev.probabilityOfPrecipitation),
                                               Max2(r.windSpeed, prev.maxWindSpeed))];
      } else {
        blocks := blocks + [Block(r.startTime, r.endTime, r.temperature, r.precipitation, r.windSpeed)];
      }
    }
  }

  // ---------------------------------------------------------------------------
  // Reference: the blocks are the maximal runs of touching hours
  // ---------------------------------------------------------------------------

  /** The next hour starts exactly when the previous one ends. */
  predicate Touches(a: Reading, b: Reading)
  {
    a.endTime == b.startTime
  }

  function Temperatures(run: seq<Reading>): seq<int>
  {
    seq(|run|, i requires 0 <= i < |run| => run[i].temperature)
  }

  function Precipitations(run: seq<Reading>): seq<int>
  {
    seq(|run|, i requires 0 <= i < |run| => run[i].precipitation)
  }

  function WindSpeeds(run: seq<Reading>): seq<int>
  {
    seq(|run|, i requires 0 <= i < |run| => run[i].windSpeed)
  }

  /** The block a run of touching hours stands for: from the first start to the
      last end, with the worst (largest) of each reading. */
  function Summary(run: seq<Reading>): Block
    requires run != []
  {
    Block(run[0].startTime, Last(run).endTime,
          Max(Temperatures(run)), Max(Precipitations(run)), Max(WindSpeeds(run)))
  }

  /** The reference result of merging `xs` one by one into an empty list. */
  function Blocks(xs: seq<Reading>): seq<Block>
  {
    Summaries(Split(xs, Touches), Summary)
  }

  /** Absorbing one more hour into a run's block gives the block of the longer run. */
  lemma SummarySnoc(run: seq<Reading>, r: Reading)
    requires run != []
    ensures Summary(run + [r]) == Absorb(Summary(run), r)
  {
    assert Temperatures(run + [r]) == Temperatures(run) + [r.temperature];
    assert Precipitations(run + [r]) == Precipitations(run) + [r.precipitation];
    assert WindSpeeds(run + [r]) == WindSpeeds(run) + [r.windSpeed];
    MaxSnoc(Temperatures(run), r.temperature);
    MaxSnoc(Precipitations(run), r.precipitation);
    MaxSnoc(WindSpeeds(run), r.windSpeed);
  }

  /** One call of merge_append_forecast on the blocks of `xs` gives the blocks
      of `xs + [r]`: the single pass computes the maximal runs. */
  lemma BlocksSnoc(xs: seq<Reading>, r: Reading)
    ensures Blocks(xs + [r]) == MergeAppended(Blocks(xs), r)
  {
    var xs' := xs + [r];
    assert xs'[..|xs'| - 1] == xs;
    BlocksLast(xs');
  }

  lemma BlocksLast(xs: seq<Reading>)
    requires xs != []
    ensures Blocks(xs) == MergeAppended(Blocks(xs[..|xs| - 1]), Last(xs))
  {
    var prefix := xs[..|xs| - 1];
    SummariesAt(Split(prefix, Touches), Summary);
    if prefix != [] {
      LastOfSplit(prefix, Touches);
      assert Last(Blocks(prefix)).endTime == Last(prefix).endTime;
      if Touches(Last(prefix), Last(xs)) {
        BlocksExtend(xs);
      } else {
        BlocksOpen(xs);
      }
    } else {
      BlocksOpen(xs);
    }
  }

  lemma BlocksExtend(xs: seq<Reading>)
    requires |xs| >= 2 && Touches(xs[|xs| - 2], Last(xs))
    ensures var bs := Blocks(xs[..|xs| - 1]);
      bs != [] && Blocks(xs) == bs[|bs| - 1 := Absorb(Last(bs), Last(xs))]
  {
    var front := Split(xs[..|xs| - 1], Touches);
    SummarySnoc(Last(front), Last(xs));
    SummariesReplaceLast(front, Last(front) + [Last(xs)], Summary);
  }

  lemma BlocksOpen(xs: seq<Reading>)
    requires xs != []
    requires |xs| >= 2 ==> !Touches(xs[|xs| - 2], Last(xs))
    ensures Blocks(xs) == Blocks(xs[..|xs| - 1]) + [Seed(Last(xs))]
  {
    SummariesSnoc(Split(xs[..|xs| - 1], Touches), [Last(xs)], Summary);
  }

  /** Adjacent blocks of a list never touch: a new block is only opened when
      the hour does not start where the last block ends. */
  lemma BlocksNeverTouch(xs: seq<Reading>)
    ensures forall k :: 0 <= k < |Blocks(xs)| - 1 ==> Blocks(xs)[k].endTime != Blocks(xs)[k + 1].startTime
  {
    SummariesAt(Split(xs, Touches), Summary);
    var rs := Split(xs, Touches);
    SplitIsMaximal(xs, Touches);
    forall k | 0 <= k < |Blocks(xs)| - 1
      ensures Blocks(xs)[k].endTime != Blocks(xs)[k + 1].startTime
    {
      assert !Touches(Last(rs[k]), rs[k + 1][0]);
    }
  }

  /** Every block spans one maximal run of touching hours and holds the maximum
      of each reading over exactly that run. */
  lemma BlocksAreRunMaxima(xs: seq<Reading>)
    ensures var rs := Split(xs, Touches);
      && IsMaximalSplit(xs, rs, Touches)
      && |Blocks(xs)| == |rs|
      && forall k :: 0 <= k < |rs| ==>
           && Blocks(xs)[k].startTime == rs[k][0].startTime
           && Blocks(xs)[k].endTime == Last(rs[k]).endTime
           && Blocks(xs)[k].temperature in Temperatures(rs[k])
           && Blocks(xs)[k].probabilityOfPrecipitation in Precipitations(rs[k])
           && Blocks(xs)[k].maxWindSpeed in WindSpeeds(rs[k])
           && forall i :: 0 <= i < |rs[k]| ==>
                && rs[k][i].temperature <= Blocks(xs)[k].temperature
                && rs[k][i].precipitation <= Blocks(xs)[k].probabilityOfPrecipitation
                && rs[k][i].windSpeed <= Blocks(xs)[k].maxWindSpeed
  {
    SummariesAt(Split(xs, Touches), Summary);
    var rs: seq<seq<Reading>> := Split(xs, Touches);
    SplitIsMaximal(xs, Touches);
    forall k, i | 0 <= k < |rs| && 0 <= i < |rs[k]|
      ensures && rs[k][i].temperature <= Blocks(xs)[k].temperature
              && rs[k][i].precipitation <= Blocks(xs)[k].probabilityOfPrecipitation
              && rs[k][i].windSpeed <= Blocks(xs)[k].maxWindSpeed
    {
      assert Temperatures(rs[k])[i] == rs[k][i].temperature;
      assert Precipitations(rs[k])[i] == rs[k][i].precipitation;
      assert WindSpeeds(rs[k])[i] == rs[k][i].windSpeed;
    }
  }

  // ---------------------------------------------------------------------------
  // Tier classification in main
  // ---------------------------------------------------------------------------

  /** Daytime with a precipitation value below 25: a candidate for either tier. */
  predicate Eligible(h: Hourly)
  {
    h.period.isDaytime && h.period.precipitation.Some? && h.period.precipitation.value < 25
  }

  /** The good-weather test (temperature band with its wind ceiling). */
  predicate GoodWeather(h: Hourly)
  {
    var t := h.period.temperature;
    (50 <= t <= 65 && h.parsedWindSpeed < 13) || (65 < t <= 83 && h.parsedWindSpeed <= 18)
  }

  /** The chilly-but-calm test. */
  predicate ChillyWeather(h: Hourly)
  {
    32 <= h.period.temperature <= 50 && h.parsedWindSpeed < 8
  }

  predicate InGoodTier(h: Hourly)
  {
    Eligible(h) && GoodWeather(h)
  }

  /** The chilly test is only reached when the good test fails (`elif`). */
  predicate InChillyTier(h: Hourly)
  {
    Eligible(h) && !GoodWeather(h) && ChillyWeather(h)
  }

  /** A daytime hour with a null precipitation value: comparing it raises. */
  predicate Crashes(h: Hourly)
  {
    h.period.isDaytime && h.period.precipitation.None?
  }

  /** What merge_append_forecast reads from an hour of either tier. Both tiers
      are only reached once the precipitation value has been compared with 25,
      so the value is present there; 0 is never used. */
  function ToReading(h: Hourly): Reading
  {
    Reading(h.period.startTime, h.period.endTime, h.period.temperature,
            if h.period.precipitation.Some? then h.period.precipitation.value else 0, h.parsedWindSpeed)
  }

  function TierReadings(hours: seq<Hourly>, tier: Hourly -> bool): seq<Reading>
  {
    Map(Filter(hours, tier), ToReading)
  }

  datatype Report = Report(good: seq<Block>, chilly: seq<Block>)

  /** The classification loop of main: on success the two lists are the merged
      runs of each tier's hours, in input order; a daytime hour without a
      precipitation value stops the run. */
  method Classify(hours: seq<Hourly>) returns (r: Result<Report, Abort>)
    ensures r.Failure? <==> !CrashFree(hours)
    ensures r.Failure? ==>
              exists i :: && 0 <= i < |hours| && Crashes(hours[i]) && CrashFree(hours[..i])
                          && r.error == MissingPrecipitation(hours[i].period.startTime)
    ensures r.Success? ==> r.value == Report(Blocks(TierReadings(hours, InGoodTier)),
                                             Blocks(TierReadings(hours, InChillyTier)))
  {
    var good := new TimePeriods();
    var chilly := new TimePeriods();
    for i := 0 to |hours|
      invariant good != chilly
      invariant CrashFree(hours[..i])
      invariant good.blocks == Blocks(TierReadings(hours[..i], InGoodTier))
      invariant chilly.blocks == Blocks(TierReadings(hours[..i], InChillyTier))
    {
      var h := hours[i];
      TierPrefix(hours, i, InGoodTier);
      TierPrefix(hours, i, InChillyTier);
      CrashFreePrefix(hours, i);
      if h.period.isDaytime {
        match h.period.precipitation
        case None =>
          assert Crashes(hours[i]) && CrashFree(hours[..i]);
          return Failure(MissingPrecipitation(h.period.startTime));
        case Some(v) =>
          if v < 25 {
            var reading := Reading(h.period.startTime, h.period.endTime, h.period.temperature, v, h.parsedWindSpeed);
            assert reading == ToReading(h);
            var t := h.period.temperature;
            if (50 <= t <= 65 && h.parsedWindSpeed < 13) || (65 < t <= 83 && h.parsedWindSpeed <= 18) {
              good.MergeAppend(reading);
            } else if 32 <= t <= 50 && h.parsedWindSpeed < 8 {
              chilly.MergeAppend(reading);
            }
          }
      }
    }
    assert hours[..|hours|] == hours;
    return Success(Report(good.blocks, chilly.blocks));
  }

  /** One more hour merges into its tier's blocks and leaves the other tier alone. */
  lemma TierStep(hours: seq<Hourly>, h: Hourly, tier: Hourly -> bool)
    ensures Blocks(TierReadings(hours + [h], tier)) ==
              if tier(h) then MergeAppended(Blocks(TierReadings(hours, tier)), ToReading(h))
              else Blocks(TierReadings(hours, tier))
  {
    TierSnoc(hours, h, tier);
    if tier(h) {
      BlocksSnoc(TierReadings(hours, tier), ToReading(h));
    } else {
      assert TierReadings(hours, tier) + [] == TierReadings(hours, tier);
    }
  }

  lemma TierPrefix(hours: seq<Hourly>, i: nat, tier: Hourly -> bool)
    requires i < |hours|
    ensures Blocks(TierReadings(hours[..i + 1], tier)) ==
              if tier(hours[i]) then MergeAppended(Blocks(TierReadings(hours[..i], tier)), ToReading(hours[i]))
              else Blocks(TierReadings(hours[..i], tier))
  {
    assert hours[..i + 1] == hours[..i] + [hours[i]];
    TierStep(hours[..i], hours[i], tier);
  }

  lemma CrashFreePrefix(hours: seq<Hourly>, i: nat)
    requires i < |hours|
    ensures CrashFree(hours[..i + 1]) <==> CrashFree(hours[..i]) && !Crashes(hours[i])
  {
    assert hours[..i + 1] == hours[..i] + [hours[i]];
    CrashFreeSnoc(hours[..i], hours[i]);
  }

  /** No daytime hour lacks a precipitation value. */
  predicate CrashFree(hours: seq<Hourly>)
  {
    forall i :: 0 <= i < |hours| ==> !Crashes(hours[i])
  }

  lemma CrashFreeSnoc(hours: seq<Hourly>, h: Hourly)
    ensures CrashFree(hours + [h]) <==> CrashFree(hours) && !Crashes(h)
  {
    assert forall i :: 0 <= i < |hours| ==> (hours + [h])[i] == hours[i];
    assert (hours + [h])[|hours|] == h;
  }

  /** Extending the input by one hour extends a tier's readings by that hour iff it is in the tier. */
  lemma TierSnoc(hours: seq<Hourly>, h: Hourly, tier: Hourly -> bool)
    ensures TierReadings(hours + [h], tier) ==
              TierReadings(hours, tier) + (if tier(h) then [ToReading(h)] else [])
  {
    assert (hours + [h])[..|hours|] == hours;
    var f := Filter(hours, tier);
    if tier(h) {
      assert Map(f + [h], ToReading) == Map(f, ToReading) + [ToReading(h)];
    }
  }

  /** No hour lands in both lists, and every hour in either list is daytime
      with a precipitation value below 25. */
  lemma TiersDisjointAndEligible(hours: seq<Hourly>, h: Hourly)
    ensures !(h in Filter(hours, InGoodTier) && h in Filter(hours, InChillyTier))
    ensures h in Filter(hours, InGoodTier) || h in Filter(hours, InChillyTier) ==>
              h in hours && h.period.isDaytime && h.period.precipitation.Some? && h.period.precipitation.value < 25
  {
    FilterMembers(hours, InGoodTier, h);
    FilterMembers(hours, InChillyTier, h);
  }

  /** Every period paired with its parsed speed, when all descriptors match. */
  function Hours(periods: seq<Period>): (hs: seq<Hourly>)
    requires forall i :: 0 <= i < |periods| ==> WindReadable(periods[i])
  {
    seq(|periods|, i requires 0 <= i < |periods| && WindReadable(periods[i]) => Hourly(periods[i], ParsedWindSpeed(periods[i].windSpeed).value))
  }

  /** main up to building the message: every descriptor is parsed before any
      hour is classified, so an unreadable descriptor wins over a missing
      precipitation value; otherwise the two lists are the merged tiers. */
  method Digest(periods: seq<Period>) returns (r: Result<Report, Abort>)
    ensures (exists i :: 0 <= i < |periods| && !WindReadable(periods[i])) ==>
              && r.Failure?
              && exists i :: && 0 <= i < |periods| && !WindReadable(periods[i])
                             && r.error == WindAbort(periods[i].windSpeed)
                             && forall j :: 0 <= j < i ==> WindReadable(periods[j])
    ensures (forall i :: 0 <= i < |periods| ==> WindReadable(periods[i])) ==>
              && (r.Failure? <==> !CrashFree(Hours(periods)))
              && (r.Failure? ==>
                    exists i :: && 0 <= i < |periods| && Crashes(Hours(periods)[i]) && CrashFree(Hours(periods)[..i])
                                && r.error == MissingPrecipitation(periods[i].startTime))
              && (r.Success? ==> r.value == Report(Blocks(TierReadings(Hours(periods), InGoodTier)),
                                                   Blocks(TierReadings(Hours(periods), InChillyTier))))
  {
    var parsed := ParseWindSpeeds(periods);
    match parsed
    case Failure(e) =>
      return Failure(e);
    case Success(hours) =>
      assert hours == Hours(periods);
      r := Classify(hours);
  }
}
