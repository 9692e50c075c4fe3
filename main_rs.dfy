/** src/main.rs: keep the daytime, dry hours whose temperature band allows
    their wind, then coalesce hours that run together into time periods
    holding the maximum temperature, precipitation and wind speed. */
module RustMain {
  import opened Wrappers
  import opened Seqs
  import opened Text
  import opened Runs

  type u8 = x: int | 0 <= x <= 255

  const U8Max: u8 := 255

  /** The fields of the serde `Period` the logic reads. The precipitation value
      is an `i64`, so a null value fails deserialisation before any of this runs. */
  datatype Period = Period(
    startTime: string,
    endTime: string,
    isDaytime: bool,
    temperature: int,
    precipitation: int,
    windSpeed: string)

  // ---------------------------------------------------------------------------
  // parse_wind_speed
  // ---------------------------------------------------------------------------

  /** `str::parse::<u8>`: an optional leading '+', then decimal digits only,
      denoting at most 255. */
  function ParseU8(t: string): (r: Option<u8>)
    ensures r.Some? ==> |t| > 0 && (IsDigit(t[0]) || t[0] == '+')
    ensures (exists i :: 1 <= i < |t| && !IsDigit(t[i])) ==> r.None?
    ensures r.Some? ==> var digits := if t[0] == '+' then t[1..] else t; IsDigits(digits) && r.value == Value(digits, 10)
  {
    var digits := if |t| > 0 && t[0] == '+' then t[1..] else t;
    if IsDigits(digits) && Value(digits, 10) <= 255 then Some(Value(digits, 10)) else None
  }

  /** Decimal renderings of numbers read back as themselves when they fit in a
      byte, with or without a '+', and are refused when they do not. */
  lemma ParseU8RoundTrip(n: nat)
    ensures ParseU8(ToDecimal(n)) == (if n <= 255 then Some(n) else None)
    ensures ParseU8("+" + ToDecimal(n)) == (if n <= 255 then Some(n) else None)
  {
    ToDecimalRoundTrip(n);
    assert ("+" + ToDecimal(n))[1..] == ToDecimal(n);
  }

  /** The first space-delimited token as a `u8`, or `u8::MAX` when that token is
      not one (`split(' ').next()` always yields a token, so the "255" default
      for a missing token is never used). */
  function ParseWindSpeed(s: string): u8
  {
    match ParseU8(FirstToken(s))
    case Some(v) => v
    case None => U8Max
  }

  /** A speed below `u8::MAX` is the decimal value of the descriptor's first
      space-delimited token, read with its optional '+' dropped. */
  lemma ParseWindSpeedSound(s: string)
    ensures ParseWindSpeed(s) != U8Max ==>
              var t := FirstToken(s);
              && t != [] && t <= s && (IsDigit(t[0]) || t[0] == '+')
              && ParseWindSpeed(s) == Value(if t[0] == '+' then t[1..] else t, 10)
  {
  }

  /** A descriptor starting with a digit string reads as that number when it
      fits in a byte and as 255 otherwise; range descriptors give their low end. */
  lemma ParseWindSpeedOf(d: string, rest: string)
    requires IsDigits(d)
    ensures ParseWindSpeed(d + " " + rest) == (if Value(d, 10) <= 255 then Value(d, 10) else 255)
    ensures ParseWindSpeed(d) == (if Value(d, 10) <= 255 then Value(d, 10) else 255)
  {
    assert ' ' !in d by {
      forall i | 0 <= i < |d| ensures d[i] != ' ' { assert IsDigit(d[i]); }
    }
    FirstTokenOf(d, rest);
    assert d[0] != '+' by { assert IsDigit(d[0]); }
  }

  // ---------------------------------------------------------------------------
  // The filter loop of main
  // ---------------------------------------------------------------------------

  /** Daytime, precipitation below 25, and a temperature band whose wind
      ceiling the parsed speed meets. */
  predicate Kept(p: Period)
  {
    && p.isDaytime
    && p.precipitation < 25
    && ((50 <= p.temperature <= 65 && ParseWindSpeed(p.windSpeed) < 13) ||
        (65 < p.temperature <= 83 && ParseWindSpeed(p.windSpeed) <= 18))
  }

  /** A kept hour is mild (50 to 83 degrees) with a parsed wind of at most 18,
      and under 13 in the cooler band; a calm (under 13), mild, dry daytime hour
      is always kept. */
  lemma KeptMeaning(p: Period)
    ensures Kept(p) ==> 50 <= p.temperature <= 83 && ParseWindSpeed(p.windSpeed) <= 18
    ensures Kept(p) && p.temperature <= 65 ==> ParseWindSpeed(p.windSpeed) < 13
    ensures (p.isDaytime && p.precipitation < 25 && 50 <= p.temperature <= 83 && ParseWindSpeed(p.windSpeed) < 13) ==> Kept(p)
  {
  }

  /** A descriptor whose first token is not a byte-sized decimal reads as 255,
      which no wind ceiling admits. */
  lemma UnreadableWindNeverKept(p: Period)
    requires ParseU8(FirstToken(p.windSpeed)).None?
    ensures ParseWindSpeed(p.windSpeed) == 255 && !Kept(p)
  {
  }

  /** The loop over `resp.properties.periods` pushing the hours to keep. */
  method SelectPeriods(all: seq<Period>) returns (periods: seq<Period>)
    ensures periods == Filter(all, Kept)
    ensures forall p :: p in periods <==> p in all && Kept(p)
  {
    periods := [];
    for i := 0 to |all|
      invariant periods == Filter(all[..i], Kept)
    {
      var period := all[i];
      assert all[..i + 1] == all[..i] + [period];
      assert all[..i + 1][..i] == all[..i];
      if period.isDaytime && period.precipitation < 25 {
        if period.temperature >= 50 && period.temperature <= 65 {
          var windSpeed := ParseWindSpeed(period.windSpeed);
          if windSpeed < 13 {
            periods := periods + [period];
          }
        } else if period.temperature > 65 && period.temperature <= 83 {
          var windSpeed := ParseWindSpeed(period.windSpeed);
          if windSpeed <= 18 {
            periods := periods + [period];
          }
        }
      }
    }
    assert all[..|all|] == all;
    forall p ensures p in periods <==> p in all && Kept(p) {
      FilterMembers(all, Kept, p);
    }
  }

  // ---------------------------------------------------------------------------
  // coalesce
  // ---------------------------------------------------------------------------

  datatype TimePeriod = TimePeriod(
    startTime: string,
    endTime: string,
    temp: int,
    probabilityOfPrecipitation: int,
    maxWindSpeed: u8)

  /** A time period holding one hour's own values. */
  function Seed(cur: Period): TimePeriod
  {
    TimePeriod(cur.startTime, cur.endTime, cur.temperature, cur.precipitation, ParseWindSpeed(cur.windSpeed))
  }

  /** `prev` after `cur` has been merged into it. */
  function Absorb(prev: TimePeriod, cur: Period): TimePeriod
  {
    prev.(endTime := cur.endTime,
          temp := Max2(prev.temp, cur.temperature),
          probabilityOfPrecipitation := Max2(prev.probabilityOfPrecipitation, cur.precipitation),
          maxWindSpeed := Max2(prev.maxWindSpeed, ParseWindSpeed(cur.windSpeed)))
  }

  /** The next hour starts when the previous one ends. */
  predicate RunsOn(a: Period, b: Period)
  {
    a.endTime == b.startTime
  }

  function Temps(run: seq<Period>): seq<int>
  {
    seq(|run|, i requires 0 <= i < |run| => run[i].temperature)
  }

  function Precipitations(run: seq<Period>): seq<int>
  {
    seq(|run|, i requires 0 <= i < |run| => run[i].precipitation)
  }

  function WindSpeeds(run: seq<Period>): seq<u8>
  {
    seq(|run|, i requires 0 <= i < |run| => ParseWindSpeed(run[i].windSpeed))
  }

  /** The time period a run of hours stands for: first start, last end, and the
      maximum of each reading. */
  function Summary(run: seq<Period>): TimePeriod
    requires run != []
  {
    var w := Max(WindSpeeds(run));
    assert w in WindSpeeds(run);
    TimePeriod(run[0].startTime, Last(run).endTime, Max(Temps(run)), Max(Precipitations(run)), w)
  }

  /** The reference result of `coalesce`: one time period per maximal run. */
  function Coalesced(periods: seq<Period>): seq<TimePeriod>
  {
    Summaries(Split(periods, RunsOn), Summary)
  }

  lemma SummarySnoc(run: seq<Period>, cur: Period)
    requires run != []
    ensures Summary(run + [cur]) == Absorb(Summary(run), cur)
  {
    assert Temps(run + [cur]) == Temps(run) + [cur.temperature];
    assert Precipitations(run + [cur]) == Precipitations(run) + [cur.precipitation];
    assert WindSpeeds(run + [cur]) == WindSpeeds(run) + [ParseWindSpeed(cur.windSpeed)];
    MaxSnoc(Temps(run), cur.temperature);
    MaxSnoc(Precipitations(run), cur.precipitation);
    MaxSnoc(WindSpeeds(run), ParseWindSpeed(cur.windSpeed));
  }

  /** One more hour either re-pushes the popped last period extended by it
      (when that period ends where the hour starts), or restores the popped
      period and pushes a new one seeded from the hour; earlier periods are
      untouched. */
  function Step(tp: seq<TimePeriod>, cur: Period): seq<TimePeriod>
  {
    if tp != [] && Last(tp).endTime == cur.startTime then tp[..|tp| - 1] + [Absorb(Last(tp), cur)]
    else tp + [Seed(cur)]
  }

  /** A step adds at most one period and changes none but the last; the last
      period then ends with the hour and holds readings at least the hour's. */
  lemma StepShape(tp: seq<TimePeriod>, cur: Period)
    ensures var r := Step(tp, cur);
      && |tp| <= |r| <= |tp| + 1
      && r != []
      && r[..|r| - 1] == tp[..|r| - 1]
      && Last(r).endTime == cur.endTime
      && Last(r).temp >= cur.temperature
      && Last(r).probabilityOfPrecipitation >= cur.precipitation
      && Last(r).maxWindSpeed >= ParseWindSpeed(cur.windSpeed)
  {
  }

  lemma CoalescedLast(periods: seq<Period>)
    requires periods != []
    ensures Coalesced(periods) == Step(Coalesced(periods[..|periods| - 1]), Last(periods))
  {
    var prefix := periods[..|periods| - 1];
    SummariesAt(Split(prefix, RunsOn), Summary);
    if prefix != [] {
      LastOfSplit(prefix, RunsOn);
      assert Last(Coalesced(prefix)).endTime == Last(prefix).endTime;
      if RunsOn(Last(prefix), Last(periods)) {
        CoalescedExtends(periods);
      } else {
        CoalescedOpens(periods);
      }
    } else {
      CoalescedOpens(periods);
    }
  }

  lemma CoalescedExtends(periods: seq<Period>)
    requires |periods| >= 2 && RunsOn(periods[|periods| - 2], Last(periods))
    ensures var tp := Coalesced(periods[..|periods| - 1]);
      tp != [] && Coalesced(periods) == tp[..|tp| - 1] + [Absorb(Last(tp), Last(periods))]
  {
    var front := Split(periods[..|periods| - 1], RunsOn);
    SummarySnoc(Last(front), Last(periods));
    SummariesReplaceLast(front, Last(front) + [Last(periods)], Summary);
  }

  lemma CoalescedOpens(periods: seq<Period>)
    requires periods != []
    requires |periods| >= 2 ==> !RunsOn(periods[|periods| - 2], Last(periods))
    ensures Coalesced(periods) == Coalesced(periods[..|periods| - 1]) + [Seed(Last(periods))]
  {
    SummariesSnoc(Split(periods[..|periods| - 1], RunsOn), [Last(periods)], Summary);
  }

  /** The hour-by-hour construction: `Step` applied to each hour in turn. */
  function Folded(periods: seq<Period>): seq<TimePeriod>
  {
    if periods == [] then [] else Step(Folded(periods[..|periods| - 1]), Last(periods))
  }

  lemma {:induction false} FoldedIsCoalesced(periods: seq<Period>)
    ensures Folded(periods) == Coalesced(periods)
  {
    if periods != [] {
      var front := periods[..|periods| - 1];
      FoldedIsCoalesced(front);
      CoalescedLast(periods);
    }
  }

  lemma FoldedPrefix(periods: seq<Period>, i: nat)
    requires i < |periods|
    ensures Folded(periods[..i + 1]) == Step(Folded(periods[..i]), periods[i])
  {
    assert periods[..i + 1][..i] == periods[..i];
  }

  /** coalesce: pop the last period, then either re-push it extended by the
      current hour or re-push it unchanged followed by a new period. */
  method Coalesce(periods: seq<Period>) returns (tp: seq<TimePeriod>)
    ensures tp == Coalesced(periods)
  {
    tp := [];
    for i := 0 to |periods|
      invariant tp == Folded(periods[..i])
    {
      var cur := periods[i];
      ghost var before := tp;
      if tp != [] {
        var prev := Last(tp);
        tp := tp[..|tp| - 1];
        if prev.endTime == cur.startTime {
          prev := prev.(endTime := cur.endTime);
          prev := prev.(temp := Max2(prev.temp, cur.temperature));
          prev := prev.(probabilityOfPrecipitation := Max2(prev.probabilityOfPrecipitation, cur.precipitation));
          prev := prev.(maxWindSpeed := Max2(prev.maxWindSpeed, ParseWindSpeed(cur.windSpeed)));
          tp := tp + [prev];
        } else {
          tp := tp + [prev];
          tp := tp + [TimePeriod(cur.startTime, cur.endTime, cur.temperature, cur.precipitation, ParseWindSpeed(cur.windSpeed))];
        }
      } else {
        tp := tp + [TimePeriod(cur.startTime, cur.endTime, cur.temperature, cur.precipitation, ParseWindSpeed(cur.windSpeed))];
      }
      assert tp == Step(before, cur);
      FoldedPrefix(periods, i);
    }
    assert periods[..|periods|] == periods;
    FoldedIsCoalesced(periods);
  }

  /** Empty in, empty out; never more periods than hours; the first period
      starts with the first hour and the last one ends with the last hour. */
  lemma CoalescedBounds(periods: seq<Period>)
    ensures |Coalesced(periods)| <= |periods|
    ensures Coalesced(periods) == [] <==> periods == []
    ensures periods != [] ==> Coalesced(periods)[0].startTime == periods[0].startTime
    ensures periods != [] ==> Last(Coalesced(periods)).endTime == Last(periods).endTime
  {
    SummariesAt(Split(periods, RunsOn), Summary);
    if periods != [] {
      FirstOfSplit(periods, RunsOn);
      LastOfSplit(periods, RunsOn);
    }
  }

  /** Neighbouring periods never run together, and each period holds the
      maximum of each reading over exactly the hours of its run. */
  lemma CoalescedRuns(periods: seq<Period>)
    ensures var rs := Split(periods, RunsOn);
      && IsMaximalSplit(periods, rs, RunsOn)
      && (forall k :: 0 <= k < |rs| - 1 ==> Coalesced(periods)[k].endTime != Coalesced(periods)[k + 1].startTime)
      && forall k, i :: 0 <= k < |rs| && 0 <= i < |rs[k]| ==>
           && rs[k][i].temperature <= Coalesced(periods)[k].temp
           && rs[k][i].precipitation <= Coalesced(periods)[k].probabilityOfPrecipitation
           && ParseWindSpeed(rs[k][i].windSpeed) <= Coalesced(periods)[k].maxWindSpeed
  {
    var rs: seq<seq<Period>> := Split(periods, RunsOn);
    SplitIsMaximal(periods, RunsOn);
    SummariesAt(rs, Summary);
    forall k | 0 <= k < |rs| - 1
      ensures Coalesced(periods)[k].endTime != Coalesced(periods)[k + 1].startTime
    {
      assert !RunsOn(Last(rs[k]), rs[k + 1][0]);
    }
    forall k, i | 0 <= k < |rs| && 0 <= i < |rs[k]|
      ensures && rs[k][i].temperature <= Coalesced(periods)[k].temp
              && rs[k][i].precipitation <= Coalesced(periods)[k].probabilityOfPrecipitation
              && ParseWindSpeed(rs[k][i].windSpeed) <= Coalesced(periods)[k].maxWindSpeed
    {
      assert Coalesced(periods)[k] == Summary(rs[k]);
      SummaryCovers(rs[k], i);
    }
  }

  /** The period a run stands for holds each of its hours' readings. */
  lemma SummaryCovers(run: seq<Period>, i: nat)
    requires i < |run|
    ensures && run[i].temperature <= Summary(run).temp
            && run[i].precipitation <= Summary(run).probabilityOfPrecipitation
            && ParseWindSpeed(run[i].windSpeed) <= Summary(run).maxWindSpeed
  {
    assert Temps(run)[i] == run[i].temperature;
    assert Precipitations(run)[i] == run[i].precipitation;
    assert WindSpeeds(run)[i] == ParseWindSpeed(run[i].windSpeed);
  }

  /** main up to formatting: the coalesced runs of the kept hours. */
  method GoodBikeTimes(all: seq<Period>) returns (entries: seq<TimePeriod>)
    ensures entries == Coalesced(Filter(all, Kept))
  {
    var periods := SelectPeriods(all);
    entries := Coalesce(periods);
  }
}
