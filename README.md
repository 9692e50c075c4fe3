# Good bike weather: the decision logic, verified

The good-bike-weather repository has five hand-written versions of one
pipeline. Each one fetches the NOAA hourly forecast, keeps the hours that are
good for cycling, merges runs of adjacent hours into blocks, and pushes a
message. This project models the pure decision logic of every version on its
own, because their rules disagree. That logic has three parts:

- **Wind descriptor parsing.** It turns `"12 mph"` or `"3 to 9 mph"` into a number.
- **Comfort-tier classification.** These are integer range tests on daytime, precipitation, temperature and wind.
- **Block merging.** This is one left-to-right pass that either extends the last block or appends a new one.

Modules:

- `WeatherPy` models weather.py:
  - the anchored wind regex, where an unreadable descriptor ends the run with exit status 1, and `int` on its digits, which raises `ValueError` beyond 4300 digits;
  - `merge_append_forecast` as the class `TimePeriods`, whose list is updated in place;
  - the two-tier classification loop.
- `RustMain` models src/main.rs:
  - `parse_wind_speed`, which reads the first token as a `u8` and falls back to 255;
  - the filter loop;
  - `coalesce` with its pop / update / re-push steps.
- `WeatherTs` models weather.ts: `parseWindSpeed`, with two regexes and a `{0, 0}` fallback, and the `filterWeather` push loop.
- `MainPy` models main.py:
  - the `temperate` comprehension and the exceptions it can raise;
  - Python's `int` on the first wind token;
  - `run` as it is written.
- `MainJs` models main.js:
  - the `.filter` predicate, with `parseInt` and NaN;
  - `run` as it is written.
- Modules shared by main.py and main.js, whose code is identical there:
  - `NumberedBlocks` is the `blocks` loop, which merges hours with consecutive forecast numbers.
  - `Retrying` is `retry`.
- Helper modules:
  - `Seqs`: filter, map, take-while, trimming, maximum.
  - `Runs`: maximal runs under a link relation.
  - `Text`: digits, decimal values and rendering, the first space-delimited token.
  - `Forecast`: the NOAA period record, and JavaScript's view of `null` as 0.
  - `Wrappers`: `Option` and `Result`.

Every merge loop is proved against one reference: the maximal runs of its input under a link relation. The link is "ends where the next starts" for weather.py and src/main.rs, and "consecutive numbers" for main.py and main.js. `Runs.Split` computes those runs. `Runs.SplitIsMaximal` proves that they form a maximal chained split, and `Runs.MaximalSplitUnique` proves that no other split is maximal. Each module then proves what its blocks hold: the first start and the last end of a run, the running maxima, and that neighbouring blocks never touch.

Timestamps are opaque strings compared for equality. Precipitation is `Option<int>` because the API may send `null`. What a comparison with `null` does is modelled per language:

- Python raises `TypeError`.
- JavaScript and TypeScript compare it as 0.
- Rust deserialises the value into an `i64`, so a null is rejected before any logic runs, and `RustMain.Period` carries a plain `int`.

## Model

| member | source | states |
|---|---|---|
| WeatherPy.WindGroup | weather.py:48-51 | a match means the descriptor is a digit run, then " mph", optionally followed by one final newline (`re.match` anchors at the start; `$` also accepts a newline at the end) |
| WeatherPy.WindGroupComplete | weather.py:48-51 | every `<digits> mph` descriptor matches, with or without a final newline, and captures exactly the digits |
| WeatherPy.RangeDescriptorRejected | weather.py:48-51 | an `"X to Y mph"` range never matches, despite the group being named `high` |
| WeatherPy.ParsedWindSpeedSound | weather.py:51-55 | `ParsedWindSpeed` (the match, then `int(m["high"])`) yields a speed only for a whole `<digits> mph` descriptor, optionally ending in one newline, of at most 4300 digits, and the speed is the value of those digits |
| WeatherPy.ParsedWindSpeedRoundTrip | weather.py:51-55 | the decimal rendering of n followed by " mph" parses back to n when it has at most 4300 digits, CPython's default limit for `int`, and gives no speed beyond that (`int` raises `ValueError`) |
| WeatherPy.ParseWindSpeeds | weather.py:49-55 | the loop succeeds iff every descriptor gives a speed (it matches and `int` accepts its digits), and then every period carries its parsed speed, in order. Otherwise it stops at the first descriptor that gives none: with exit status 1 when it does not match (`UnparsedWindSpeed`), and with `ValueError` when its digits exceed the limit (`TooManyDigits`) |
| WeatherPy.TimePeriods.constructor | weather.py:159-162 | a new list of blocks is empty |
| WeatherPy.TimePeriods.MergeAppend | weather.py:60-91 | the in-place update of the block list is one merge step on the old list |
| WeatherPy.MergeAppendedShape | weather.py:60-91 | `MergeAppended`, one call of `merge_append_forecast`: one new block, seeded from the hour's values, is appended exactly when the list is empty or the last block ends somewhere other than where the hour starts, and earlier blocks are kept. Otherwise the length is unchanged, only the last block changes, it keeps its start, takes the hour's end, and takes the larger of each of the three readings |
| WeatherPy.BlocksSnoc | weather.py:60-91 | merging one more hour into the blocks of a sequence gives the blocks of the longer sequence, so repeated merging computes the maximal runs of touching hours |
| WeatherPy.SummarySnoc | weather.py:71-78 | absorbing an hour into a run's block gives the block of the longer run, so the readings are running maxima |
| WeatherPy.BlocksNeverTouch | weather.py:64-91 | in each result list, no block ends where the next block starts |
| WeatherPy.BlocksAreRunMaxima | weather.py:64-91 | each block spans one maximal run of touching hours, from its first start to its last end. Its temperature, precipitation and wind speed are each attained in the run and are no smaller than any hour's value in it |
| WeatherPy.Classify | weather.py:164-174 | the loop fails iff some daytime hour has a null precipitation value, and then with `MissingPrecipitation` (the `TypeError` of `None < 25`) at the first such hour. Otherwise the good list and the chilly list are the merged blocks of exactly the hours in each tier, in input order |
| WeatherPy.TierStep | weather.py:164-174 | one more hour changes only its own tier's blocks, by one merge step, and leaves the other tier's blocks alone |
| WeatherPy.TiersDisjointAndEligible | weather.py:166-174 | no hour is in both tiers, because the chilly test is an `elif`. Every hour in either tier is daytime with a precipitation value below 25 |
| WeatherPy.Digest | weather.py:156-174 | every descriptor is parsed before any hour is classified. If some descriptor gives no speed, the run fails with the abort of the first such descriptor: exit status 1 when it does not match, `ValueError` when its digits exceed the limit. When all descriptors parse, the run fails exactly when `Classify` would on the parsed hours, with `MissingPrecipitation` at the first daytime hour whose precipitation value is null; otherwise it gives exactly `Classify`'s two lists |
| RustMain.ParseU8 | src/main.rs:92 | a parsed `u8` comes from an optional '+' followed by at least one decimal digit and nothing else, and is the digits' value (so "+" alone is refused) |
| RustMain.ParseU8RoundTrip | src/main.rs:92-93 | the decimal rendering of n, with or without '+', parses to n when n <= 255 and is refused when n > 255 |
| RustMain.ParseWindSpeedOf | src/main.rs:88-94 | a descriptor whose first token is a digit string gives that number when it fits in a byte and 255 otherwise, so "10 to 15 mph" gives 10, the low end |
| RustMain.ParseWindSpeedSound | src/main.rs:88-94 | `ParseWindSpeed` gives a value other than 255 only as the decimal value of the descriptor's first space-delimited token, read with an optional leading '+' |
| RustMain.UnreadableWindNeverKept | src/main.rs:89-93 | a first token that is not a byte-sized decimal reads as 255, which passes neither wind test |
| RustMain.KeptMeaning | src/main.rs:21-31 | `Kept`, the tests of the filter loop: a kept hour has 50 <= T <= 83 and a parsed wind of at most 18, and below 13 when T <= 65. Every daytime hour with precipitation below 25, 50 <= T <= 83 and wind below 13 is kept |
| RustMain.SelectPeriods | src/main.rs:20-34 | the pushed periods are, in input order, exactly the daytime hours with precipitation below 25 whose temperature band's wind ceiling (below 13 for 50..65, at most 18 for 66..83) the parsed speed meets |
| RustMain.SummarySnoc | src/main.rs:128-136 | absorbing the current hour into the popped period gives the period of the longer run: end time extended, and each reading the maximum of old and new |
| RustMain.SummaryCovers | src/main.rs:128-136 | the period of a run holds readings at least those of each of its hours |
| RustMain.StepShape | src/main.rs:125-157 | `Step`, one iteration of `coalesce`: at most one period is added and all but the last are unchanged. The last period ends with the hour and holds readings at least the hour's |
| RustMain.CoalescedLast | src/main.rs:125-157 | one iteration either re-pushes the popped last period extended by the hour, when the period ends where the hour starts, or restores it unchanged and pushes a period seeded from the hour. Either way, earlier periods are untouched and the result is the coalescing of the longer input |
| RustMain.FoldedIsCoalesced | src/main.rs:123-159 | the hour-by-hour construction equals the reference grouping into maximal runs |
| RustMain.Coalesce | src/main.rs:123-159 | the loop's result is one time period per maximal run of hours that run together |
| RustMain.CoalescedBounds | src/main.rs:123-159 | empty in gives empty out, output is never longer than input, the first period starts with the first hour, and the last period ends with the last hour |
| RustMain.CoalescedRuns | src/main.rs:122-159 | the runs are maximal, neighbouring periods never run together, and each period's temperature, precipitation and wind speed bound those of every hour in its run |
| RustMain.GoodBikeTimes | src/main.rs:20-37 | the entries are the coalesced runs of exactly the kept hours |
| WeatherTs.SingleGroup | weather.ts:122-124 | a match of the single pattern means the whole string is a digit run followed by " mph" |
| WeatherTs.SingleGroupComplete | weather.ts:122-124 | every whole `"N mph"` matches and captures N |
| WeatherTs.RangeGroups | weather.ts:114-116 | a match of the range pattern means the whole string is digits, " to ", digits, " mph" |
| WeatherTs.RangeGroupsComplete | weather.ts:114-116 | every whole `"X to Y mph"` matches and captures X and Y |
| WeatherTs.ParseRange | weather.ts:114-120 | `"X to Y mph"` gives `{low: X, high: Y}` |
| WeatherTs.ParseSingle | weather.ts:121-125 | `"N mph"` gives `{low: N, high: N}` |
| WeatherTs.ParseFallback | weather.ts:118-125 | a descriptor of neither shape gives `{low: 0, high: 0}` through the `\|\| "0"` fallback, so it counts as calm |
| WeatherTs.ParseRangeOfNumbers | weather.ts:113-127 | the numbers of a rendered range come back unchanged |
| WeatherTs.ParseWindSpeed | weather.ts:113-127 | a low end that differs from the high end comes only from a whole `"X to Y mph"` descriptor, as the values of X and Y. Any nonzero speed needs a descriptor that starts with a digit and ends in " mph" |
| WeatherTs.GoodToBike | weather.ts:140-146 | a good hour has no precipitation value or one below 20. A null value passes the dry test as 0 would. A descriptor of neither shape always passes the wind test |
| WeatherTs.FilterWeather | weather.ts:137-158 | the push loop yields, in input order, the record of each daytime hour with 50 < T < 80, precipitation below 20 (null counting as 0) and parsed high speed below 20 |
| WeatherTs.FilterWeatherMeaning | weather.ts:138-157 | the output is no longer than the input. Every good hour yields its record, and every record comes from a good hour: it copies name to day, the times, the temperature and the precipitation value, and its wind speed is the parsed high, below 20 |
| MainPy.PyInt | main.py:41 | `int` accepts only a token that ends in a digit once the whitespace `int` skips (ASCII `\t` to `\r` and space, and the Unicode spaces, but not U+001C to U+001F) is removed from both ends, and gives a negative number only after a leading '-' |
| MainPy.PyIntOfDigits | main.py:41 | `int` of a digit string is its decimal value when it has at most 4300 digits (CPython's default limit), and raises `ValueError` otherwise |
| MainPy.PyIntOfSigned | main.py:41 | a leading '+' or '-' applies to the value of the digits after it, under the same 4300-digit limit |
| MainPy.PyIntRoundTrip | main.py:41 | decimal renderings read back as themselves up to 4300 digits, and raise `ValueError` beyond |
| MainPy.PyIntRejects | main.py:41 | a token holding any character that is not a digit, an underscore, a sign or whitespace raises `ValueError` |
| MainPy.SeparatorNotSkipped | main.py:41 | a digit string led or followed by one of U+001C to U+001F raises `ValueError`: `int` does not skip these as whitespace, although `str.isspace` accepts them |
| MainPy.WindTokenOf | main.py:41 | the first token of "N mph" or "N to M mph" is read as N, the low end of a range, when N has at most 4300 digits |
| MainPy.ComprehensionMeaning | main.py:35-42 | a comprehension whose condition may raise succeeds iff no element's condition raises. It then holds, in order, exactly the elements the condition accepts. Otherwise it raises what the first raising element raises |
| MainPy.TemperateMeaning | main.py:35-42 | `Temperate`: `temperate` is computed iff no hour's condition raises (`TypeError` on a null precipitation value, `ValueError` on a non-integer wind token, each evaluated with `and` short-circuiting). It then holds exactly the daytime hours with precipitation below 25, T > 50 and first wind token below 13, in order |
| MainPy.ConditionNeverIndexError | main.py:38-41 | the condition never raises `IndexError` |
| MainPy.ConditionMeaning | main.py:38-41 | `Condition`: a night hour is never kept and never raises. A daytime hour raises `TypeError` iff its precipitation value is null. It raises `ValueError` iff it is dry and warm but its first wind token is no integer. It is kept iff it is dry and warm and that token is below 13 |
| MainPy.NoDaytimeNoTemperate | main.py:35-45 | a forecast with no daytime hour raises nothing while filtering and leaves `temperate` empty |
| MainPy.Run | main.py:35-54 | as written: an exception from the comprehension propagates; an empty `temperate` raises `IndexError` at line 45; otherwise the result is the blocks of `temperate` |
| MainPy.RunIntended | main.py:35-54 | with the test the right way round, the result is the blocks of `temperate`, and `IndexError` never occurs |
| NumberedBlocks.BlocksPrefix | main.py:47-54 | one more hour changes the blocks as one loop iteration does: the last block only gets the hour's end time when the hour's number follows the previous one, and otherwise the hour itself is appended |
| NumberedBlocks.StepShape | main.py:48-54 | `Step`, one iteration of the loop: at most one block is added and earlier blocks are kept. The last block either keeps everything but takes the hour's end time, or is the hour itself |
| NumberedBlocks.Merge | main.py:44-54 | the `blocks` loop of main.py and main.js computes the blocks of the maximal runs of consecutively numbered hours, whatever `num` starts at |
| NumberedBlocks.BlocksBounds | main.py:47-54 | there are no more blocks than hours, and none only when there are no hours. The first hour opens the first block with only its end time changed, and the last block ends with the last hour |
| NumberedBlocks.BlocksAreRuns | main.js:31-40 | laid end to end, the blocks' runs are the hours in order. Numbers go up by one inside a run, a block ends where the numbering breaks, and each block is its run's first hour with the run's last end time |
| Retrying.Retry | main.py:20-28 | (the same loop as main.js:6-17) at most n calls are made. The loop stops right after the first call that does not raise, and never re-raises. After n failures it makes exactly n calls (none when n <= 0) |
| MainJs.ParseIntOfDigits | main.js:27 | `parseInt` of a digit run followed by anything that cannot continue it (a non-digit, and after a lone "0" neither `x` nor `X`) is the run's decimal value |
| MainJs.ParseIntNaN | main.js:27 | a token whose first non-space character is neither a sign nor a digit is NaN |
| MainJs.ParseIntHex | main.js:27 | a "0x" prefix switches to base 16 |
| MainJs.ParseIntRoundTrip | main.js:27 | decimal renderings read back as themselves |
| MainJs.ParseIntBlank | main.js:27 | an empty or all-whitespace token is NaN |
| MainJs.ParseIntNegative | main.js:27 | `ParseInt` gives a negative number only when a '-' follows the leading whitespace |
| MainJs.WindTokenOf | main.js:27 | the first token of "N mph" or "N to M mph" is read as N |
| MainJs.NaNWindDropped | main.js:23-27 | an hour whose wind token is NaN is excluded without error |
| MainJs.KeepsMeaning | main.js:23-27 | `Keeps`, the filter predicate: a kept hour is daytime and warmer than 50, its precipitation value is null or below 25, and its first wind token reads as a number below 13. A null value decides as 0 would |
| MainJs.TemperateMeaning | main.js:20-28 | the filter keeps, in order, exactly the daytime hours with precipitation below 25 (null counting as 0), T > 50 and a readable wind token below 13 |
| MainJs.NoDaytimeNoTemperate | main.js:20-30 | a forecast with no daytime hour leaves `temperate` empty |
| MainJs.Run | main.js:20-40 | as written: an empty `temperate` throws `TypeError` at line 30; otherwise the result is the blocks of `temperate` |
| MainJs.RunIntended | main.js:20-40 | with the test the right way round, the result is the blocks of `temperate`, and no temperate hour gives no blocks |

## Left out

- HTTP fetch, JSON decoding and the push notification (urllib, reqwest, fetch) are network I/O. The forecast enters the model as a sequence of periods.
- Sleep, exponential backoff and random jitter in the retries are left out. `Retrying.Retry` takes the outcome of each call as a function from the attempt number to success.
- Date formatting, message building and printing depend on locale and strftime. Timestamps stay opaque strings.
- Argument parsing, environment variables and the debug dump are configuration and printing.
- The serde type definitions of src/main.rs: only the fields the logic reads are modelled.
- weather.py's fetch retry and its exit on an empty period list (weather.py:33-46) are part of the fetch.
- Concurrency (`async`/`await`) only sequences I/O.
- src/main.rs's `get_forecast_with_retries` (src/main.rs:58-85) is network I/O with a retry on decode errors.
- Python's `re` `\d` and `int` accept all Unicode decimal digits, and JavaScript `parseInt` works on IEEE doubles. The model accepts ASCII digits only and uses exact integers. All comparisons in the logic use small integers, where the two agree.
- In main.py and main.js a block is the period object itself, so setting `endTime` also changes that entry of `temperate`. Nothing reads that entry afterwards, so the model uses fresh values and does not model this aliasing.
- weather.py writes `parsedWindSpeed` into each dict in place. The model returns new `Hourly` records pairing each period with its speed.
- MainPy.PyIntRoundTrip: states only non-negative renderings; signs are covered separately by MainPy.PyIntOfSigned.
- MainPy.PyInt and WeatherPy.ParsedWindSpeed apply CPython's default limit of 4300 digits for `int` (`sys.int_info.default_max_str_digits`). Changing that limit through `PYTHONINTMAXSTRDIGITS`, `-X int_max_str_digits` or `sys.set_int_max_str_digits` is interpreter configuration and is not modelled.

## Findings

| source | as written | input that shows it | evidently intended | confidence | as-written member | corrected member |
|---|---|---|---|---|---|---|
| main.py:45 | `num = temperate[0]["number"] if len(temperate) == 0 else 0` reads `temperate[0]` exactly when the list is empty | any forecast without a temperate hour, e.g. only night hours (MainPy.NoDaytimeNoTemperate), raises `IndexError`, so every attempt of `retry` fails and nothing is sent | `len(temperate) > 0`: start from the first hour's number, and no temperate hour gives no blocks | not executed | MainPy.Run | MainPy.RunIntended |
| main.js:30 | `temperate.length === 0 ? temperate[0].number : 0` reads `temperate[0].number` exactly when the array is empty | any forecast without a temperate hour, e.g. only night hours (MainJs.NoDaytimeNoTemperate), throws `TypeError` | `temperate.length > 0` | not executed | MainJs.Run | MainJs.RunIntended |
