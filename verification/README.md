# PrivatBank exchange-rate collector, modelled in Dafny

The program asks PrivatBank's archive endpoint for the exchange rates of
the last `days` days (1 to 10), keeps the requested currencies of each day,
prints them and appends a log entry. This model covers its deterministic
part, in `privatbank_rates.py`:

- `fetch_currency_rates`: the day-count check, the loop over day offsets
  `0 .. days-1`, the stop at the first `HttpError` with the days gathered so
  far kept, and the closing of the API client on every exit path
  (`collector.dfy`, module `Collector`);
- the per-day filter that builds the insertion-ordered dictionary
  `currency -> {sale, purchase}` (`filter.dfy`, `rates.dfy`);
- the body of a `log_command` entry (`log_body.dfy`);
- the currency arguments of `main`: upper-cased in order, `USD, EUR` by
  default (`arguments.dfy`).

The network and the clock are parameters. `respond(i)` is what the GET for
day offset `i` yields: a decoded payload, an HTTP failure status (the
`HttpError` of `get_rates`), or any other exception. `dateOf(i)` is the
`DD.MM.YYYY` string for offset `i`. A run records its client activity as
events `Opened`, `Requested(date)` and `Closed`, so "no client before
validation" and "closed exactly once" are statements about that trace.
Python dictionaries are sequences of entries with distinct keys; assigning
an existing key keeps its position and replaces its value, as in Python.
Rate values are carried as the text the program prints for them.
`scenarios.dfy` holds concrete runs: USD kept and EUR absent, 404 on the
second of three days, out-of-range day counts, `usd` matching `USD`, and
the "No data." and `None` lines of the log.

Currency codes are meant to be compared without regard to letter case.
The model follows the code, which only upper-cases the arguments; the
filter then compares codes exactly.
So an argument matches a payload code written in upper case whatever the
argument's case (`Arguments.QueryNamesCodeIgnoringCase`), and it never
matches a payload code written in lower case.

## Model

| member | source | states |
|---|---|---|
| `Rates.Put` | privatbank_rates.py:65-68 | after `m[k] = v` the keys are the old keys when `k` was present, else the old keys with `k` appended last |
| `Rates.PutKeepsKeysDistinct` | privatbank_rates.py:65-68 | assigning into the dictionary never creates a duplicate key |
| `Rates.PutLookup` | privatbank_rates.py:65-68 | after `m[k] = v`, `k` maps to `v` and every other key keeps its value |
| `Filter.FilterRates` | privatbank_rates.py:61-68 | the day's dictionary has distinct keys, and a code is a key exactly when it is requested and some record carries it; records without a `currency` field never give a key |
| `Filter.FilterTakesLastOffer` | privatbank_rates.py:61-68 | for a requested code, the dictionary holds the quote of the last record carrying that code |
| `Filter.FilterKeepsLastQuote` | privatbank_rates.py:61-68 | a key is present iff requested and offered, and its value is `{sale, purchase}` copied from the last record with that code, missing rates kept as `None` |
| `Filter.FilterOrdersByFirstOffer` | privatbank_rates.py:61-68 | the dictionary's keys come in the order in which the payload first offers them |
| `Filter.FirstOfferExtend` | privatbank_rates.py:62-64 | one more record does not move the first offer of a code already offered, and a new code is first offered by that record |
| `Collector.Walk` | privatbank_rates.py:53-73 | the loop makes at most one request per remaining offset and keeps at most one day per request |
| `Collector.Collect` | privatbank_rates.py:43-77 | a day count outside 1..10 is rejected with the fixed message and no client event; otherwise the client is opened first, closed last, and each exactly once |
| `Collector.WalkStopsAtFirstFailure` | privatbank_rates.py:53-73 | with offset `k` the first one without a payload, the loop keeps the days before `k` in offset order, requests up to and including `k`, and raises only for a non-HTTP failure |
| `Collector.CollectWithoutFailure` | privatbank_rates.py:53-70 | when every request succeeds, the result has exactly `days` entries, entry `i` keyed by the date of offset `i`, after `days` requests in offset order |
| `Collector.CollectStopsAtHttpFailure` | privatbank_rates.py:57-77 | an `HttpError` at offset `k` returns exactly the `k` earlier entries, the same a `k`-day run returns, and the client is still closed once |
| `Collector.CollectPropagatesOtherFailure` | privatbank_rates.py:52-75 | any other exception at offset `k` leaves the function without a result, after `k+1` requests and one close |
| `Collector.MissingExchangeRateStillAppended` | privatbank_rates.py:58-70 | a payload without `exchangeRate` still yields its day entry, with an empty dictionary |
| `LogBody.RateLinesCount` | privatbank_rates.py:102-105 | each currency of a day writes exactly one line |
| `LogBody.BodyLineCount` | privatbank_rates.py:94-106 | the body has one line per date, one per currency or one "No data." line, and one blank line per day |
| `LogBody.BodyAppend` | privatbank_rates.py:94-106 | the body of two consecutive runs of days is the first body followed by the second |
| `LogBody.BuildDayBlock` | privatbank_rates.py:96-106 | the loop for one day writes its date line, then "No data." or the currency lines in insertion order, then a blank line |
| `LogBody.BuildBody` | privatbank_rates.py:94-106 | the loop over the collected days produces the body, day by day in order |
| `Arguments.Upper` | privatbank_rates.py:130-132 | upper-casing keeps the length and maps each character on its own |
| `Arguments.UpperIsCanonical` | privatbank_rates.py:130-132 | an upper-cased code has no lower-case letter, and upper-casing it again changes nothing |
| `Arguments.UpperMatchesIgnoringCase` | privatbank_rates.py:130-132 | an argument upper-cases to an upper-case code exactly when it spells that code in any letter case |
| `Arguments.NormaliseCurrencies` | privatbank_rates.py:129-134 | the currency list is `USD, EUR` without arguments, else the arguments upper-cased in order; no code in it has a lower-case letter |
| `Arguments.ParseArgs` | privatbank_rates.py:118-134 | fewer than two arguments print usage; a day count `int()` rejects stops the run; otherwise the query carries the parsed count |
| `Arguments.QueryNamesCodeIgnoringCase` | privatbank_rates.py:129-134 | a query names an upper-case payload code exactly when some currency argument spells it in any case; without arguments it names USD and EUR |
| `Scenarios.UsdKeptEurAbsent` | privatbank_rates.py:61-68 | a payload offering USD 27.5/27.0, asked for USD and EUR, yields USD with those rates and no EUR key |
| `Scenarios.UnnamedAndUnrequestedSkipped` | privatbank_rates.py:62-64 | a record without a currency and a record for an unrequested code add nothing |
| `Scenarios.OutOfRangeDaysRefused` | privatbank_rates.py:44-45 | day counts 0, 11 and -1 are refused before any client event |
| `Scenarios.NotFoundOnSecondOfThree` | privatbank_rates.py:53-77 | HTTP 404 on the second of three days returns the first day only, after two requests and one close |
| `Scenarios.LowerCaseArgumentMatches` | privatbank_rates.py:129-134 | the argument `usd` becomes `USD` and keeps the payload's USD record |
| `Scenarios.EmptyDayLogged` | privatbank_rates.py:97-99 | a day without matching currencies logs its date, "No data." and a blank line |
| `Scenarios.MissingRatePrintsNone` | privatbank_rates.py:102-106 | a missing sale rate is logged as `None`, not omitted and not zero |

## Left out

- The aiohttp session, the GET request, the status check and JSON decoding (lines 23-39): network I/O, replaced by the `respond` oracle.
- `datetime.now()`, `timedelta` and `strftime` (lines 54-55, 87): clock and calendar code; the date of offset `i` is the opaque `dateOf(i)`, so "one calendar day apart" is not stated.
- The header line of `log_command` (lines 86-92), file appending (lines 85, 109-110), the coloured report on standard output (lines 139-153) and the event-loop setup (lines 168-172): clock, float formatting, file and terminal I/O.
- `time.perf_counter` timing and `{elapsed:.2f}` (lines 115, 160, 165): clock and floating point.
- The final `log_command` call (line 163), which runs even when validation failed and `data` was never bound: the model stops at the collect result.
- The printed messages of `main` and of the caught `HttpError` (lines 73, 119, 125, 155-158): output only; the model keeps the outcome kinds instead.
- Payloads that are not JSON objects, or whose `exchangeRate` is not a list of objects: these raise outside `HttpError`; the model covers them only as `OtherFailure`.
- `Arguments.Upper`: maps only ASCII letters, because Python's `str.upper()` also maps other Unicode letters (and can lengthen a string, as `ß` to `SS`); currency codes are ASCII.
- `Arguments.ParseArgs`: takes `int()` as the parameter `parseInt`, because Python's integer parsing (signs, spaces, underscores) is library code.
- `LogBody.BodyLineCount`: counts lines only when no date, code or printed rate contains a line break.
