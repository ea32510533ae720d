/**
 * The in-memory list logic of the read-only query API
 * (DockerRestAPI/laptop/api.py): ordering and projecting the stored control
 * records, the top-K limit, the "no data" gate of the three list handlers,
 * and the row layout of the CSV output.
 *
 * The database fetch, HTTP routing, query-string parsing, JSON encoding and
 * the CSV writer's quoting stay outside the model: the handlers receive the
 * fetched records, the parsed `top` value and the format string as inputs.
 */
module ListApi {
  import opened Wrappers

  /** A control record as stored: any of its keys may be missing. */
  datatype StoredControl = StoredControl(
    km: Option<real>,
    miles: Option<real>,
    location: Option<string>,
    open: Option<string>,
    close: Option<string>)

  /** A projected record: the keys of the `open` projection or of the `close` projection. */
  datatype Entry =
    | OpenEntry(km: real, miles: real, location: string, open: string)
    | CloseEntry(km: real, miles: real, location: string, close: string)

  /** What `get_data_from_db` returns: a list, or the dict of the `all` query. */
  datatype Data =
    | Listing(entries: seq<Entry>)
    | Paired(openTimes: seq<Entry>, closeTimes: seq<Entry>)

  /** The `time_type` argument: 'all', 'open' or 'close'. */
  datatype TimeType = All | OpenOnly | CloseOnly

  // ---------------------------------------------------------------------
  // Ordering by the `open` string
  // ---------------------------------------------------------------------

  /** Python's `<=` on strings: lexicographic by code point, a prefix first. */
  predicate LexLe(a: string, b: string)
    ensures a <= b ==> LexLe(a, b)
    decreases |a|
  {
    a == [] || (b != [] && (a[0] < b[0] || (a[0] == b[0] && LexLe(a[1..], b[1..]))))
  }

  /** The sort key `x.get('open', '')`. */
  function SortKey(c: StoredControl): string {
    c.open.GetOr("")
  }

  predicate OrderedByOpen(s: seq<StoredControl>) {
    forall i, j :: 0 <= i < j < |s| ==> LexLe(SortKey(s[i]), SortKey(s[j]))
  }

  /** Puts `c` before the first record whose key is not smaller, so that equal keys keep their order. */
  function InsertByOpen(c: StoredControl, s: seq<StoredControl>): (r: seq<StoredControl>)
    ensures multiset(r) == multiset(s) + multiset{c}
    ensures |r| == |s| + 1
  {
    if s == [] then [c]
    else if LexLe(SortKey(c), SortKey(s[0])) then [c] + s
    else
      assert s == [s[0]] + s[1..];
      [s[0]] + InsertByOpen(c, s[1..])
  }

  /** `controls.sort(key=lambda x: x.get('open', ''))`: a stable sort by the open string. */
  function SortByOpen(s: seq<StoredControl>): (r: seq<StoredControl>)
    ensures multiset(r) == multiset(s)
    ensures |r| == |s|
  {
    if s == [] then []
    else
      assert s == [s[0]] + s[1..];
      InsertByOpen(s[0], SortByOpen(s[1..]))
  }

  // ---------------------------------------------------------------------
  // Projections
  // ---------------------------------------------------------------------

  /** The `open` projection, with the defaults 0, 0, '' and '' for missing keys. */
  function ProjectOpen(c: StoredControl): (e: Entry)
    ensures e.OpenEntry? && e.open == SortKey(c)
  {
    OpenEntry(c.km.GetOr(0.0), c.miles.GetOr(0.0), c.location.GetOr(""), c.open.GetOr(""))
  }

  /** The `close` projection, with the defaults 0, 0, '' and '' for missing keys. */
  function ProjectClose(c: StoredControl): (e: Entry)
    ensures e.CloseEntry? && e.close == c.close.GetOr("")
    ensures SameControl(e, ProjectOpen(c))
  {
    CloseEntry(c.km.GetOr(0.0), c.miles.GetOr(0.0), c.location.GetOr(""), c.close.GetOr(""))
  }

  function OpenProjections(s: seq<StoredControl>): seq<Entry> {
    seq(|s|, i requires 0 <= i < |s| => ProjectOpen(s[i]))
  }

  function CloseProjections(s: seq<StoredControl>): seq<Entry> {
    seq(|s|, i requires 0 <= i < |s| => ProjectClose(s[i]))
  }

  /** Two entries describe the same control: same km, miles and location. */
  predicate SameControl(a: Entry, b: Entry) {
    a.km == b.km && a.miles == b.miles && a.location == b.location
  }

  /** The two lists of an `all` result pair up index by index. */
  predicate Aligned(d: Data) {
    d.Paired? ==>
      && |d.openTimes| == |d.closeTimes|
      && forall i :: 0 <= i < |d.openTimes| ==> SameControl(d.openTimes[i], d.closeTimes[i])
  }

  /** The result of `get_data_from_db(time_type)` for the fetched records `controls`. */
  function DataFor(timeType: TimeType, controls: seq<StoredControl>): (d: Data)
    ensures Aligned(d)
    ensures d.Paired? <==> (timeType == All && controls != [])
  {
    if controls == [] then Listing([])
    else
      var sorted := SortByOpen(controls);
      match timeType
      case OpenOnly => Listing(OpenProjections(sorted))
      case CloseOnly => Listing(CloseProjections(sorted))
      case All => Paired(OpenProjections(sorted), CloseProjections(sorted))
  }

  /** `get_data_from_db` from the fetched records on: sort, then build the projections by appending. */
  method GetData(timeType: TimeType, controls: seq<StoredControl>) returns (d: Data)
    ensures d == DataFor(timeType, controls)
  {
    if |controls| == 0 {
      return Listing([]);
    }
    var sorted := SortByOpen(controls);
    if timeType == OpenOnly {
      var result := [];
      for i := 0 to |sorted|
        invariant |result| == i
        invariant forall j :: 0 <= j < i ==> result[j] == ProjectOpen(sorted[j])
      {
        result := result + [ProjectOpen(sorted[i])];
      }
      return Listing(result);
    } else if timeType == CloseOnly {
      var result := [];
      for i := 0 to |sorted|
        invariant |result| == i
        invariant forall j :: 0 <= j < i ==> result[j] == ProjectClose(sorted[j])
      {
        result := result + [ProjectClose(sorted[i])];
      }
      return Listing(result);
    } else {
      var openTimes, closeTimes := [], [];
      for i := 0 to |sorted|
        invariant |openTimes| == |closeTimes| == i
        invariant forall j :: 0 <= j < i ==> openTimes[j] == ProjectOpen(sorted[j])
        invariant forall j :: 0 <= j < i ==> closeTimes[j] == ProjectClose(sorted[j])
      {
        openTimes := openTimes + [ProjectOpen(sorted[i])];
        closeTimes := closeTimes + [ProjectClose(sorted[i])];
      }
      return Paired(openTimes, closeTimes);
    }
  }

  // ---------------------------------------------------------------------
  // Top K
  // ---------------------------------------------------------------------

  function MinInt(x: int, y: int): int {
    if x <= y then x else y
  }

  function MaxInt(x: int, y: int): int {
    if x <= y then y else x
  }

  /** Python's slice `s[:k]`: a negative `k` counts from the end. */
  function Slice(s: seq<Entry>, k: int): (r: seq<Entry>)
    ensures r <= s
  {
    if k >= 0 then s[..MinInt(k, |s|)] else s[..MaxInt(|s| + k, 0)]
  }

  /** `apply_top_k`: both lists of an `all` result, or the one list, cut with the same `k`. */
  function ApplyTopK(d: Data, k: int): (r: Data)
    ensures r.Paired? <==> d.Paired?
    ensures Aligned(d) ==> Aligned(r)
  {
    match d
    case Paired(openTimes, closeTimes) => Paired(Slice(openTimes, k), Slice(closeTimes, k))
    case Listing(entries) => Listing(Slice(entries, k))
  }

  /** `if top_k: data = apply_top_k(data, top_k)`: a missing or zero `top` leaves the data alone. */
  function TopKIfGiven(d: Data, top: Option<int>): (r: Data)
    ensures top == None || top == Some(0) ==> r == d
    ensures r.Paired? <==> d.Paired?
    ensures r.Listing? ==> r.entries <= d.entries
    ensures r.Paired? ==> r.openTimes <= d.openTimes && r.closeTimes <= d.closeTimes
    ensures Aligned(d) ==> Aligned(r)
  {
    if top.Some? && top.value != 0 then ApplyTopK(d, top.value) else d
  }

  // ---------------------------------------------------------------------
  // CSV layout
  // ---------------------------------------------------------------------

  /** One CSV field, before the writer renders it. */
  datatype Cell = Num(value: real) | Text(text: string)

  type Row = seq<Cell>

  const ALL_HEADER: Row := [Text("km"), Text("miles"), Text("location"), Text("open_time"), Text("close_time")]
  const OPEN_HEADER: Row := [Text("km"), Text("miles"), Text("location"), Text("open_time")]
  const CLOSE_HEADER: Row := [Text("km"), Text("miles"), Text("location"), Text("close_time")]

  /** `item.get('open', '')`. */
  function OpenText(e: Entry): string {
    if e.OpenEntry? then e.open else ""
  }

  /** `item.get('close', '')`. */
  function CloseText(e: Entry): string {
    if e.CloseEntry? then e.close else ""
  }

  function PairedRow(openItem: Entry, closeItem: Entry): Row {
    [Num(openItem.km), Num(openItem.miles), Text(openItem.location), Text(OpenText(openItem)), Text(CloseText(closeItem))]
  }

  function OpenRow(e: Entry): Row {
    [Num(e.km), Num(e.miles), Text(e.location), Text(OpenText(e))]
  }

  function CloseRow(e: Entry): Row {
    [Num(e.km), Num(e.miles), Text(e.location), Text(CloseText(e))]
  }

  /**
   * The rows `format_as_csv` writes: a header and one row per entry; for an
   * `all` result each row joins entry i of both lists; a list's header
   * follows its first entry, and an empty list writes nothing.
   */
  function CsvRows(d: Data): (rows: seq<Row>)
    requires d.Paired? ==> |d.openTimes| <= |d.closeTimes|
    ensures d.Paired? ==> |rows| == |d.openTimes| + 1 && rows[0] == ALL_HEADER
    ensures d.Listing? ==> (rows == [] <==> d.entries == [])
    ensures d.Listing? && d.entries != [] ==>
      && |rows| == |d.entries| + 1
      && rows[0] == (if d.entries[0].OpenEntry? then OPEN_HEADER else CLOSE_HEADER)
  {
    match d
    case Paired(openTimes, closeTimes) =>
      [ALL_HEADER] + seq(|openTimes|, i requires 0 <= i < |openTimes| => PairedRow(openTimes[i], closeTimes[i]))
    case Listing(entries) =>
      if entries != [] && entries[0].OpenEntry? then
        [OPEN_HEADER] + seq(|entries|, i requires 0 <= i < |entries| => OpenRow(entries[i]))
      else if entries != [] && entries[0].CloseEntry? then
        [CLOSE_HEADER] + seq(|entries|, i requires 0 <= i < |entries| => CloseRow(entries[i]))
      else []
  }

  /** `format_as_csv`: writes the header and the rows one by one into the output buffer. */
  method FormatAsCsv(d: Data) returns (rows: seq<Row>)
    requires d.Paired? ==> |d.openTimes| <= |d.closeTimes|
    ensures rows == CsvRows(d)
  {
    rows := [];
    match d
    case Paired(openTimes, closeTimes) =>
      rows := rows + [ALL_HEADER];
      for i := 0 to |openTimes|
        invariant |rows| == i + 1 && rows[0] == ALL_HEADER
        invariant forall j :: 0 <= j < i ==> rows[j + 1] == PairedRow(openTimes[j], closeTimes[j])
      {
        rows := rows + [PairedRow(openTimes[i], closeTimes[i])];
      }
    case Listing(entries) =>
      if entries != [] && entries[0].OpenEntry? {
        rows := rows + [OPEN_HEADER];
        for i := 0 to |entries|
          invariant |rows| == i + 1 && rows[0] == OPEN_HEADER
          invariant forall j :: 0 <= j < i ==> rows[j + 1] == OpenRow(entries[j])
        {
          rows := rows + [OpenRow(entries[i])];
        }
      } else if entries != [] && entries[0].CloseEntry? {
        rows := rows + [CLOSE_HEADER];
        for i := 0 to |entries|
          invariant |rows| == i + 1 && rows[0] == CLOSE_HEADER
          invariant forall j :: 0 <= j < i ==> rows[j + 1] == CloseRow(entries[j])
        {
          rows := rows + [CloseRow(entries[i])];
        }
      }
  }

  // ---------------------------------------------------------------------
  // The list handlers
  // ---------------------------------------------------------------------

  const NO_DATA: string := "No data available"

  /** What a list handler answers. */
  datatype Response =
    | NoDataCsv(text: string)
    | NoDataJson(message: string)
    | JsonBody(data: Data)
    | CsvBody(rows: seq<Row>)

  function AsciiLower(s: string): string {
    seq(|s|, i requires 0 <= i < |s| => if 'A' <= s[i] <= 'Z' then (s[i] as int + 32) as char else s[i])
  }

  /** `format.lower() == 'csv'`. */
  predicate WantsCsv(format: string)
    ensures WantsCsv(format) <==>
      && |format| == 3
      && format[0] in {'c', 'C'} && format[1] in {'s', 'S'} && format[2] in {'v', 'V'}
  {
    var lower := AsciiLower(format);
    assert |lower| == 3 ==> lower == [lower[0], lower[1], lower[2]];
    lower == "csv"
  }

  /** Python's `not data`: only an empty list is falsy, a dict with its two keys never is. */
  predicate IsEmpty(d: Data)
    ensures IsEmpty(d) ==> d == Listing([])
    ensures d.Paired? ==> !IsEmpty(d)
  {
    d.Listing? && d.entries == []
  }

  /** The answer of `ListAll.get`, `ListOpenOnly.get` or `ListCloseOnly.get`. */
  function Respond(timeType: TimeType, format: string, top: Option<int>, controls: seq<StoredControl>): (r: Response)
    ensures (r.NoDataCsv? || r.NoDataJson?) <==> controls == []
    ensures (r.NoDataCsv? || r.CsvBody?) <==> WantsCsv(format)
    ensures r.NoDataCsv? ==> r.text == "No data available\n"
    ensures r.NoDataJson? ==> r.message == "No data available"
    ensures r.CsvBody? && timeType == All ==> r.rows != [] && r.rows[0] == ALL_HEADER
    ensures r.JsonBody? ==> (r.data.Paired? <==> timeType == All)
  {
    var d := DataFor(timeType, controls);
    if IsEmpty(d) then
      if WantsCsv(format) then NoDataCsv(NO_DATA + "\n") else NoDataJson(NO_DATA)
    else
      var limited := TopKIfGiven(d, top);
      if WantsCsv(format) then CsvBody(CsvRows(limited)) else JsonBody(limited)
  }

  /** The body shared by the three list handlers, which differ only in the time type they ask for. */
  method Get(timeType: TimeType, format: string, top: Option<int>, controls: seq<StoredControl>)
    returns (response: Response)
    ensures response == Respond(timeType, format, top, controls)
  {
    var data := GetData(timeType, controls);
    if IsEmpty(data) {
      if WantsCsv(format) {
        return NoDataCsv(NO_DATA + "\n");
      }
      return NoDataJson(NO_DATA);
    }
    if top.Some? && top.value != 0 {
      data := ApplyTopK(data, top.value);
    }
    if WantsCsv(format) {
      var rows := FormatAsCsv(data);
      response := CsvBody(rows);
    } else {
      response := JsonBody(data);
    }
  }
}
