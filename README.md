# spothinta in Dafny

A model of the spot-price script `spothinta.py`. The script fetches tomorrow's
day-ahead electricity prices for the Finnish market. It turns each hourly
price into a spot price with VAT (`alv`) and a consumer total, and posts each
point as one line-protocol record to an InfluxDB write endpoint. The total adds:

- electricity tax (`sahkovero`);
- retailer margin (`valityspalkkio`);
- a transmission fee: the night fee `yosiirto` for hours 22, 23 and 0 to 6, the day fee `paivasiirto` otherwise.

The model has four modules and one helper module:

- `Tariff` (tariff.dfy): the per-point transform of the main block, as pure
  functions (`SpotPrice`, `Fee`, `PointPrice`, `Compute`), and the
  appending loop itself as the method `ComputeDataPoints`, proved equal to
  `Compute`. Prices are `real`. The local hour of each point is a field of
  the raw point.
- `LineProtocol` (line_protocol.dfy): the record format and the send loop
  `WriteToInfluxdb`. The loop is proved equal to the function
  `Written`: the records posted, in order, up to and including the first
  refused one, and the exit code. The HTTP responses are an input sequence of
  status codes, one per post. Number rendering is a parameter (`Renderer`).
  `ParseRecord` is the inverse of the record format, and round-trip lemmas
  hold in both directions.
- `FetchWindow` (fetch_window.dfy): the `start`/`end` query strings built
  from the day string. Proved: both bounds carry the same day, and the start
  sorts before the end.
- `Spothinta` (spothinta.dfy): one run of the script: fetch, transform, write.
  Exit codes are values (1 for a refused fetch, 2 for a refused write, 0
  otherwise).
- `Optional` (optional.dfy): the `Option` datatype.

The script detects HTTP failures with `raise_for_status()`. That call
raises only for client errors (4xx) and server errors (5xx), which the model
states as `RaisesForStatus`: `400 <= status < 600`. So a 1xx, 3xx or
600-and-above response aborts neither the fetch nor the send loop.

## Model

| member | source | states |
|---|---|---|
| `Tariff.IsNightHour` | spothinta.py:94 | the script's membership test in the list `[22, 23, 0, 1, 2, 3, 4, 5, 6]` holds exactly for the hours at most 6 or at least 22 |
| `Tariff.SpotPrice` | spothinta.py:91 | the spot price is the price over ten times 1 + alv/100, i.e. spot times 1000 equals price times (100 + alv); with no VAT it is the price over ten; a non-negative price with VAT of at least -100 % gives a non-negative spot price |
| `Tariff.Fee` | spothinta.py:94-97 | hours 7..21 select the day fee `paivasiirto`; hours 0..6 and 22..23 select the night fee `yosiirto` |
| `Tariff.PointPrice` | spothinta.py:91-99 | the output keeps the input timestamp; spot times 10 equals price times (1 + alv/100); total minus spot is tax plus margin plus the day fee in hours 7..21 and the night fee otherwise |
| `Tariff.Compute` | spothinta.py:89-99 | the transform gives exactly one output per input point; the i-th output is the transform of the i-th input |
| `Tariff.ComputeDataPoints` | spothinta.py:89-99 | the appending loop produces `Compute` of its input; it has one entry per input point, with the same timestamp, spot `price/10*(1+alv/100)` and total `spot + sahkovero + valityspalkkio + fee(hour)` |
| `Tariff.ComputeAppend` | spothinta.py:89-99 | the transform of a concatenation is the concatenation of the transforms (it works point by point, nothing is filtered or reordered) |
| `Tariff.ComputeKeepsTimestamps` | spothinta.py:89-99 | the output has as many entries as the input, and the i-th output carries the timestamp of the i-th input: same count, same order |
| `Tariff.HoursPartition` | spothinta.py:94 | an hour is in the night list exactly when it is not in 7..21, i.e. exactly when it is at most 6 or at least 22 |
| `Tariff.NightAndDaySets` | spothinta.py:94-97 | the night hours are exactly {0..6, 22, 23}, the day hours exactly {7..21}; the two are disjoint and cover 0..23 |
| `Tariff.WindowBoundaries` | spothinta.py:94-97 | hours 6 and 22 are night and select `yosiirto`; hours 7 and 21 are day and select `paivasiirto` |
| `Tariff.TotalOverSpot` | spothinta.py:94-97 | total minus spot is always one of two constants: tax plus margin plus the night fee `yosiirto` when the hour is in the night list, and tax plus margin plus the day fee `paivasiirto` when it is not |
| `Tariff.SpotPriceExample` | spothinta.py:91 | with alv = 24 a raw price of 100 gives spot 12.4 |
| `Tariff.NightTotalExample` | spothinta.py:91-95 | price 100 at 03:00 with tax 2.79372, margin 0.3996, night fee 1.43, VAT 24 gives spot 12.4 and total 17.02332 |
| `Tariff.DayTotalExample` | spothinta.py:91-97 | the same point at 12:00 with day fee 2.15 gives total 17.74332 |
| `LineProtocol.Record` | spothinta.py:57 | the record is laid out as `prices spot=`, the spot text, `,total=`, the total text, one space and the timestamp text, each at its own position, and its length is the sum of those parts |
| `LineProtocol.RecordOf` | spothinta.py:57 | the record of a computed point starts with `prices spot=` and is exactly as long as the key texts, the rendered spot price, the rendered total, one space and the rendered timestamp together |
| `LineProtocol.Records` | spothinta.py:56-57 | one record per item, in item order, the i-th record being that of the i-th item |
| `LineProtocol.RecordRoundTrip` | spothinta.py:57 | a record `prices spot=<s>,total=<t> <ts>` whose spot text has no comma and whose total text has no space parses back to exactly (s, t, ts) |
| `LineProtocol.RecordOfRoundTrip` | spothinta.py:57 | when the rendered spot price has no comma and the rendered total no space, the record of a computed point parses back to exactly its rendered spot price, total and timestamp |
| `LineProtocol.ParseRecordSound` | spothinta.py:57 | any line that parses is exactly the record of the three parsed texts, and those texts meet the round trip's separator condition |
| `LineProtocol.RaisesForStatus` | spothinta.py:59-63 | `raise_for_status` passes every 2xx status and raises for every 4xx and 5xx status; it passes every status below 400 or from 600 up |
| `LineProtocol.FirstFailure` | spothinta.py:59-67 | the index of the first response for which `raise_for_status` raises: every earlier response passes, the one at the index raises (or there is none) |
| `LineProtocol.Written` | spothinta.py:56-67 | the outcome of the send loop: the exit code is 0 or 2, at most one record per item is posted, and on exit code 2 at least one record was posted and the response to the last one raises |
| `LineProtocol.WriteToInfluxdb` | spothinta.py:56-67 | the send loop posts records in item order; it ends with exit code 0 iff no response raises, having then posted every record; otherwise it exits 2 after posting the records of the items up to and including the first one refused, with all earlier ones accepted |
| `LineProtocol.WrittenIsPrefix` | spothinta.py:56-67 | what is posted is a prefix of all records; its length is the first failure index plus one on abort and the item count otherwise; the code is 2 exactly when some response raises |
| `LineProtocol.WrittenMeaning` | spothinta.py:56-67 | the writer exits 0 exactly when no response raises, having posted every record; otherwise it exits 2, the last posted record being that of the refused item, whose response raises, with all earlier responses passing |
| `LineProtocol.ThirdOfFiveRefused` | spothinta.py:56-67 | with five items and a 401 on the third, the records of items 1 to 3 are posted, then the run exits with 2; items 4 and 5 are never posted |
| `FetchWindow.WindowFor` | spothinta.py:20 | both query bounds are the day string followed by a fixed 14-character suffix, `T00:00:00.000Z` for the start and `T23:59:59.999Z` for the end |
| `FetchWindow.WindowSharesDay` | spothinta.py:20 | start and end both begin with the day string, are 14 characters longer, and give back the same day when the time suffix is removed |
| `FetchWindow.IsoWindowShape` | spothinta.py:17-20 | for a `YYYY-MM-DD` day both bounds are 24-character instants with `T` at position 10 and `Z` last |
| `FetchWindow.WindowOrdered` | spothinta.py:20 | the start string sorts strictly before the end string, whatever the day |
| `Spothinta.GetSpotData` | spothinta.py:24-33 | a 2xx response hands on the points of the body unchanged, and so do 1xx and 3xx responses; a 4xx or 5xx response ends the fetch with exit code 1, the only code a failed fetch gives |
| `Spothinta.FetchAndWriteAgree` | spothinta.py:26-33 | the fetch fails on a status exactly when the same status, answering a single post, makes the writer exit with 2: both use one failure rule |
| `Spothinta.Run` | spothinta.py:87-101 | a run requests the window of the day; a refused fetch posts nothing and exits 1; otherwise it posts what the writer posts for the transformed points and ends with the writer's code; the code is always 0, 1 or 2 |
| `Spothinta.SuccessfulRunPostsEveryPoint` | spothinta.py:87-101 | a run ending with 0 posts one record per raw point, in input order, each carrying that point's spot price, total and timestamp |
| `Spothinta.FetchFailureScenario` | spothinta.py:24-33 | a fetch answered with 500 ends the run with exit code 1 and no post |

## Left out

- HTTP (`requests.get`, `requests.Session`, basic auth, the fixed write parameters, `session.close()`): network I/O through a library. Each response is a status code given as input. The fetched body is given as the list of points it holds.
- Network errors and malformed JSON during the fetch or a write: the script does not catch them, so they leave the script as uncaught exceptions. They are not modelled.
- Reading `spothinta.ini` with `configparser`: file I/O. The five tariff constants are the `Tariffs` value, and the URLs and credentials are not used.
- The clock and the timezone (`datetime.now`, `timedelta`, `strftime`, `fromtimestamp`): the day string is an input of `Run`. The local hour of each point is the `hour` field of `RawPoint`. Computing "tomorrow" from the current date is not modelled.
- Floating point: prices are exact `real`s, with no rounding. The examples come out exactly, e.g. 12.4 and 17.02332.
- Rendering floats and integers inside the f-string: this is delegated to Python. The `Renderer` parameter stands for it. `RecordRoundTrip` requires the spot text to have no comma and the total text to have no space. Python's float rendering never produces either character.
- Logging: no effect on the computed values.
- `exit()`: modelled as a returned exit code. Code 0 stands for the writer returning and the script ending normally.
- JSON extraction `data['data']['fi']`: the body is given as the extracted point list.
