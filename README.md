# ACP brevet control times, and the list logic of their query API

This project models, in Dafny, the core of a brevet control-time calculator
and the in-memory part of the read-only API that lists the stored schedule.

- **Control times** (`DockerRestAPI/laptop/acp_times.py`). `open_time` and
  `close_time` take a control distance and the nominal brevet length. They
  return when the control opens and closes, as a shift from the brevet start.
  Both reject a nominal length outside {200, 300, 400, 600, 1000} km. A
  control at or before 0 km opens at the start and closes one hour later.
  A control past the finish is clamped to the finish. The opening time sums,
  band by band, the distance ridden in each band at that band's maximum
  speed (34, 32, 30, 28, 26 km/h). The closing time first applies three
  special cases in order: under 60 km it is `d/20 + 1` hours, the full
  200 km brevet closes at 13h30, and the full 400 km brevet at 27h00.
  Otherwise it uses the minimum speeds (15, 11.428, 13.333 km/h). Both
  band sums are cut to whole hours and whole minutes.
  Module `AcpTimes` (`acp_times.dfy`) holds the tables, the calculators as
  functions, and the same calculators as methods with the band loop. Module
  `AcpProperties` (`acp_properties.dfy`) proves what the rules promise.
- **Query lists** (`DockerRestAPI/laptop/api.py`). `get_data_from_db` sorts
  the fetched records by their `open` string, then projects them onto the
  keys of the `open` list, the `close` list, or both lists of the `all`
  result. `apply_top_k` cuts the result with a Python slice. The three list
  handlers answer "No data available" when nothing is stored. Otherwise they
  apply top K when `top` is given and non-zero, and render JSON or CSV.
  `format_as_csv` writes a header and one row per entry. Module `ListApi`
  (`api.dfy`) holds these operations. Module `ApiProperties`
  (`api_properties.dfy`) proves their properties.
- `wrappers.dfy` holds the `Option` and `Result` datatypes.

A time is the argument of the `shift` applied to the start, `Shift(hours,
minutes)`, and `Total()` gives it in minutes. Distances, speeds and times are
exact reals. The start timestamp is not modelled.

The RUSA control-time algorithm description cited at the head of
`acp_times.py` works out the opening of a 200 km control as 200/34 = 5H53.
The code computes 12000/34 = 352.94 minutes and truncates that to 05:52.
The model follows the code (`AcpProperties.WorkedExamples`).

## Model

| member | source | states |
|---|---|---|
| `AcpTimes.BandMinutes` | DockerRestAPI/laptop/acp_times.py:57-75 | the minutes to ride the remaining distance through the speed bands are never negative |
| `AcpTimes.Truncate` | DockerRestAPI/laptop/acp_times.py:77-79 | hours and minutes are whole, minutes lie in [0, 60), and hours*60 + minutes is the floor of the total: truncated, never rounded |
| `AcpTimes.OpenShift` | DockerRestAPI/laptop/acp_times.py:32-35 | the opening time fails exactly when the nominal length is not one of the five sanctioned ones, and then with InvalidBrevetDistance of that length |
| `AcpTimes.CloseShift` | DockerRestAPI/laptop/acp_times.py:101-104 | the closing time fails exactly when the nominal length is not one of the five sanctioned ones, and then with InvalidBrevetDistance of that length |
| `AcpTimes.SegmentMinutes` | DockerRestAPI/laptop/acp_times.py:57-75 | the band loop (with its early break) returns the band sum; its invariants keep the remainder equal to max(d - prev, 0) |
| `AcpTimes.OpenTime` | DockerRestAPI/laptop/acp_times.py:19-83 | `open_time` step by step (validation, start control, clamping, band loop, truncation) returns the opening shift |
| `AcpTimes.CloseTime` | DockerRestAPI/laptop/acp_times.py:88-162 | `close_time` step by step (validation, start control, clamping, the ordered special cases, band loop, truncation) returns the closing shift |
| `AcpProperties.BandsAsParts` | DockerRestAPI/laptop/acp_times.py:61-75 | the loop's shrinking remainder gives the same minutes as summing, per band, the stretch of the ride inside that band |
| `AcpProperties.OpenClosedForm` | DockerRestAPI/laptop/acp_times.py:48-75 | for every distance the opening band sum equals the closed form over the bands 0-200 @34, 200-400 @32, 400-600 @30, 600-1000 @28, 1000-1300 @26 |
| `AcpProperties.CloseClosedForm` | DockerRestAPI/laptop/acp_times.py:131-154 | for every distance the closing band sum equals the closed form over 0-600 @15, 600-1000 @11.428, 1000-1300 @13.333 |
| `AcpProperties.UnreachedBandsIdle` | DockerRestAPI/laptop/acp_times.py:61-67 | once the ride ends inside band k-1, the remainder is used up and the bands after it add nothing |
| `AcpProperties.FinalBandIdle` | DockerRestAPI/laptop/acp_times.py:44-75 | since the clamped distance is at most 1000 km, the 1000-1300 km band of either table never contributes |
| `AcpProperties.InvalidBrevetRejected` | DockerRestAPI/laptop/acp_times.py:102-104 | a bad nominal length is rejected by both calculators whatever the control distance, including a start control |
| `AcpProperties.StartControl` | DockerRestAPI/laptop/acp_times.py:107-109 | a control at or before 0 km opens at +0 and closes at exactly +60 minutes |
| `AcpProperties.Clamping` | DockerRestAPI/laptop/acp_times.py:111-112 | a control beyond the brevet length has the open and close times of a control at the brevet length |
| `AcpProperties.OpenTruncated` | DockerRestAPI/laptop/acp_times.py:77-82 | every opening time past the start is the floor of the closed form, as whole hours and whole minutes below 60 |
| `AcpProperties.CloseTruncated` | DockerRestAPI/laptop/acp_times.py:156-161 | every generic closing time is the floor of the closed form, as whole hours and whole minutes below 60 |
| `AcpProperties.ShortControlClose` | DockerRestAPI/laptop/acp_times.py:114-118 | under 60 km the control closes at exactly d/20 + 1 hours (3d + 60 minutes), not truncated |
| `AcpProperties.FixedFinishes` | DockerRestAPI/laptop/acp_times.py:120-135 | 200 km on a 200 km brevet closes at 13h30 and 400 on 400 at 27h00, while on every longer valid brevet they keep the generic 13h20 and 26h40 |
| `AcpProperties.WorkedExamples` | DockerRestAPI/laptop/acp_times.py:19-118 | 200 km on a 200 km brevet opens at 5h52, 50 km closes at 3.5 hours, a 250 km brevet is rejected |
| `AcpProperties.OpenNotAfterClose` | DockerRestAPI/laptop/acp_times.py:40-161 | for every valid brevet and every control distance the opening time is no later than the closing time |
| `AcpProperties.OpenMonotone` | DockerRestAPI/laptop/acp_times.py:40-82 | on a fixed brevet the opening time never decreases as the control distance grows |
| `AcpProperties.CloseLowerBound` | DockerRestAPI/laptop/acp_times.py:107-161 | every closing time is at least an hour, past the start strictly more, and from 60 km on at least four hours |
| `AcpProperties.CloseMonotone` | DockerRestAPI/laptop/acp_times.py:107-161 | on a fixed brevet the closing time never decreases as the control distance grows, across the 60 km rule and the fixed finishes |
| `ListApi.LexLe` | DockerRestAPI/laptop/api.py:46 | Python's string order puts a prefix no later than the longer string; the reference definition, totality, transitivity and antisymmetry are the lemmas below |
| `ListApi.InsertByOpen` | DockerRestAPI/laptop/api.py:46 | one insertion step of the sort adds the record once and keeps every other record; that it keeps the order is `InsertOrdered` |
| `ListApi.SortByOpen` | DockerRestAPI/laptop/api.py:46 | the sort keeps every record exactly once (same multiset, same length); that it orders them is `SortByOpenCorrect` |
| `ListApi.ProjectOpen` | DockerRestAPI/laptop/api.py:48-57 | the `open` projection is an open entry whose open string is the record's sort key, '' when missing |
| `ListApi.ProjectClose` | DockerRestAPI/laptop/api.py:59-68 | the `close` projection is a close entry holding the record's close string ('' when missing) and the same km, miles and location as the `open` projection of that record |
| `ListApi.DataFor` | DockerRestAPI/laptop/api.py:43-86 | the query result is the `all` dict exactly for the `all` query over stored records, and its two lists always pair up by km, miles and location |
| `ListApi.GetData` | DockerRestAPI/laptop/api.py:43-86 | the sort and the appending loops build exactly the query result |
| `ListApi.Slice` | DockerRestAPI/laptop/api.py:103 | a Python slice `s[:k]` is a prefix of `s` |
| `ListApi.ApplyTopK` | DockerRestAPI/laptop/api.py:93-103 | top K keeps the shape of the result and, by cutting both lists with the same k, their pairing |
| `ListApi.TopKIfGiven` | DockerRestAPI/laptop/api.py:180-181 | a missing or zero `top` leaves the data unchanged; otherwise every list is cut to a prefix, the shape and the pairing of an `all` result are kept |
| `ListApi.CsvRows` | DockerRestAPI/laptop/api.py:114-156 | the CSV has a header plus one row per entry; `all` uses the five-column header; a list's header follows its first entry; an empty list writes nothing |
| `ListApi.FormatAsCsv` | DockerRestAPI/laptop/api.py:114-156 | the row-writing loops produce exactly the CSV layout |
| `ListApi.WantsCsv` | DockerRestAPI/laptop/api.py:175 | the format selects CSV exactly when it is the three letters c, s, v in either case |
| `ListApi.IsEmpty` | DockerRestAPI/laptop/api.py:174 | only an empty list is falsy; the dict of an `all` result never is |
| `ListApi.Respond` | DockerRestAPI/laptop/api.py:167-187 | "No data available" is answered exactly when nothing is stored, as CSV text or a JSON message per the format; CSV comes exactly when asked for; an `all` CSV always starts with its header; a JSON body is the dict exactly for `all` |
| `ListApi.Get` | DockerRestAPI/laptop/api.py:167-187 | the list handler's steps (fetch, no-data gate, top K, format) produce the handler's answer |
| `ApiProperties.LexLeReference` | DockerRestAPI/laptop/api.py:46 | the recursive order agrees with its reference definition: a prefix, or a lower code point at the first difference |
| `ApiProperties.LexLeTotal` | DockerRestAPI/laptop/api.py:46 | any two sort keys are comparable |
| `ApiProperties.LexLeTransitive` | DockerRestAPI/laptop/api.py:46 | the order on sort keys is transitive |
| `ApiProperties.LexLeAntisymmetric` | DockerRestAPI/laptop/api.py:46 | two keys each no later than the other are equal |
| `ApiProperties.InsertOrdered` | DockerRestAPI/laptop/api.py:46 | inserting a record into an open-ordered list keeps it open-ordered |
| `ApiProperties.SortByOpenCorrect` | DockerRestAPI/laptop/api.py:46 | the sort orders the records by their open string (a missing one read as '') and keeps each record exactly once |
| `ApiProperties.OpenListsOrdered` | DockerRestAPI/laptop/api.py:46-57 | every open list, from the `open` or the `all` query, holds open entries ordered by their open strings |
| `ApiProperties.EntriesFromSortedRecords` | DockerRestAPI/laptop/api.py:46-86 | entry i of each list is the projection of record i of an open-ordered permutation of the stored records, with the defaults 0, 0, '' and '' |
| `ApiProperties.TopKPositive` | DockerRestAPI/laptop/api.py:95-103 | a positive k keeps the first min(k, n) items of each list, in order |
| `ApiProperties.TopKNegative` | DockerRestAPI/laptop/api.py:95-103 | a negative k follows slice semantics and drops the last abs(k) items of the one list, or of each list of an `all` result |
| `ApiProperties.TopKGate` | DockerRestAPI/laptop/api.py:179-181 | top K is applied only when `top` is present and non-zero; otherwise the data is unchanged |
| `ApiProperties.AllCsvRowsAreRecords` | DockerRestAPI/laptop/api.py:118-132 | each body row of the `all` CSV holds one stored record's km, miles, location, open and close, in open order, with at most one row per record |
| `ApiProperties.ListCsvRowsAreRecords` | DockerRestAPI/laptop/api.py:133-156 | the `open` or `close` CSV is empty exactly when the limited list is; otherwise it is that list's header, then one row per record in open order holding its km, miles, location and open or close time |
| `ApiProperties.NegativeTopKPastTheGate` | DockerRestAPI/laptop/api.py:179-187 | a negative top can empty a non-empty result after the gate: the list CSV then has no header, the `all` CSV only its header |

## Left out

- Floating point: speeds such as 11.428 and 13.333 and all divisions are exact reals. A Python float sitting just below a whole minute could truncate one minute lower than the model.
- arrow: parsing the ISO 8601 start, time zones and calendar arithmetic of `shift`. A time is the shift from an opaque start.
- The MongoDB connection, `collection.find`, and the broad `except` that logs and returns an empty list. The handlers receive the fetched records as input.
- Flask routing, `Response` objects, `request.args` parsing (`top` is an optional integer input), `json.dumps`, and the CSV writer's quoting and number rendering. CSV rows are sequences of number and text cells.
- `HealthCheck`: it reports whether the database answers and how many controls are stored; both come from the database, which is not modelled.
- `ListApi.WantsCsv`: lower-cases ASCII letters only. Python's full Unicode `lower()` is not modelled.
- `ListApi.SortByOpen`: Python's `list.sort` is a library routine. It is modelled as a stable insertion sort, and its in-place update of the list is not modelled. Stability holds by construction; no lemma states it separately. Key comparison assumes every stored `open` value is a string or missing.
- The three handlers `ListAll.get`, `ListOpenOnly.get` and `ListCloseOnly.get` are one method, `ListApi.Get`. They differ only in the time type they pass.
- `format_as_csv` raises an IndexError if an `all` result's close list is shorter than its open list. `ListApi.CsvRows` requires the source's own guarantee instead: the close list is at least as long. Every result of the query layer meets this.
