/**
 * What the query layer promises, proved about module ListApi: the records
 * come out ordered by their open string and none is lost or invented, the
 * two lists of an `all` result pair up, top K keeps a prefix, the "no data"
 * answer appears exactly when nothing is stored, and every CSV row carries
 * the fields of one stored record.
 */
module ApiProperties {
  import opened Wrappers
  import opened ListApi

  lemma {:induction false} LexLeTotal(a: string, b: string)
    ensures LexLe(a, b) || LexLe(b, a)
    decreases |a|
  {
    if a != [] && b != [] && a[0] == b[0] {
      LexLeTotal(a[1..], b[1..]);
    }
  }

  lemma {:induction false} LexLeTransitive(a: string, b: string, c: string)
    requires LexLe(a, b) && LexLe(b, c)
    ensures LexLe(a, c)
    decreases |a|
  {
    if a != [] && a[0] == b[0] && b[0] == c[0] {
      LexLeTransitive(a[1..], b[1..], c[1..]);
    }
  }

  /** At the first position where `a` and `b` differ, `a` has the smaller code point. */
  predicate FirstDifferenceLower(a: string, b: string) {
    exists k :: 0 <= k < |a| && k < |b| && a[..k] == b[..k] && a[k] < b[k]
  }

  /** After a shared first character, the first difference is that of the tails. */
  lemma SharedHead(a: string, b: string)
    requires a != [] && b != [] && a[0] == b[0]
    ensures FirstDifferenceLower(a, b) <==> FirstDifferenceLower(a[1..], b[1..])
  {
    if FirstDifferenceLower(a, b) {
      var k :| 0 <= k < |a| && k < |b| && a[..k] == b[..k] && a[k] < b[k];
      assert k > 0;
      assert a[1..][..k - 1] == a[..k][1..] && b[1..][..k - 1] == b[..k][1..];
      assert a[1..][k - 1] < b[1..][k - 1];
    }
    if FirstDifferenceLower(a[1..], b[1..]) {
      var k :| 0 <= k < |a[1..]| && k < |b[1..]| && a[1..][..k] == b[1..][..k] && a[1..][k] < b[1..][k];
      assert a[..k + 1] == [a[0]] + a[1..][..k] && b[..k + 1] == [b[0]] + b[1..][..k];
      assert a[k + 1] < b[k + 1];
    }
  }

  /**
   * Reference definition of Python's string order: `a <= b` exactly when
   * `a` is a prefix of `b`, or at the first position where they differ
   * `a` has the smaller code point.
   */
  lemma {:induction false} LexLeReference(a: string, b: string)
    ensures LexLe(a, b) <==> a <= b || FirstDifferenceLower(a, b)
    decreases |a|
  {
    if a != [] && b != [] && a[0] < b[0] {
      assert a[..0] == b[..0];
    } else if a != [] && b != [] && a[0] == b[0] {
      LexLeReference(a[1..], b[1..]);
      SharedHead(a, b);
      assert a == [a[0]] + a[1..] && b == [b[0]] + b[1..];
    }
  }

  /** Two strings that each sort no later than the other are equal. */
  lemma {:induction false} LexLeAntisymmetric(a: string, b: string)
    requires LexLe(a, b) && LexLe(b, a)
    ensures a == b
    decreases |a|
  {
    if a != [] {
      LexLeAntisymmetric(a[1..], b[1..]);
      assert a == [a[0]] + a[1..] && b == [b[0]] + b[1..];
    }
  }

  lemma {:induction false} InsertOrdered(c: StoredControl, s: seq<StoredControl>)
    requires OrderedByOpen(s)
    ensures OrderedByOpen(InsertByOpen(c, s))
    decreases |s|
  {
    if s == [] {
    } else if LexLe(SortKey(c), SortKey(s[0])) {
      var r := [c] + s;
      forall i, j | 0 <= i < j < |r|
        ensures LexLe(SortKey(r[i]), SortKey(r[j]))
      {
        if i == 0 && j > 1 {
          LexLeTransitive(SortKey(c), SortKey(s[0]), SortKey(s[j - 1]));
        }
      }
    } else {
      LexLeTotal(SortKey(c), SortKey(s[0]));
      var tail := InsertByOpen(c, s[1..]);
      InsertOrdered(c, s[1..]);
      forall j | 0 <= j < |tail|
        ensures LexLe(SortKey(s[0]), SortKey(tail[j]))
      {
        assert tail[j] in multiset(tail);
        if tail[j] != c {
          assert tail[j] in s[1..];
          var k :| 0 <= k < |s[1..]| && s[1..][k] == tail[j];
          assert s[k + 1] == tail[j];
        }
      }
      var r := [s[0]] + tail;
      forall i, j | 0 <= i < j < |r|
        ensures LexLe(SortKey(r[i]), SortKey(r[j]))
      {
        if i > 0 {
          assert r[i] == tail[i - 1] && r[j] == tail[j - 1];
        }
      }
    }
  }

  /** The sort leaves the records ordered by their open string, and keeps every record exactly once. */
  lemma {:induction false} SortByOpenCorrect(s: seq<StoredControl>)
    ensures OrderedByOpen(SortByOpen(s))
    ensures multiset(SortByOpen(s)) == multiset(s)
    decreases |s|
  {
    if s != [] {
      SortByOpenCorrect(s[1..]);
      InsertOrdered(s[0], SortByOpen(s[1..]));
    }
  }

  /**
   * Every list of open entries, from the `open` query or from an `all`
   * query, is ordered by its open strings.
   */
  lemma OpenListsOrdered(timeType: TimeType, controls: seq<StoredControl>)
    requires timeType != CloseOnly
    ensures var d := DataFor(timeType, controls);
      var entries := if d.Listing? then d.entries else d.openTimes;
      forall i, j :: 0 <= i < j < |entries| ==>
        entries[i].OpenEntry? && entries[j].OpenEntry? && LexLe(entries[i].open, entries[j].open)
  {
    SortByOpenCorrect(controls);
  }

  /**
   * Whatever the query, entry i of each list comes from record i of an
   * ordering of the stored records by their open string that keeps every
   * record exactly once; in an `all` result both lists draw on that same record.
   */
  lemma EntriesFromSortedRecords(timeType: TimeType, controls: seq<StoredControl>)
    requires controls != []
    ensures var s := SortByOpen(controls);
      && OrderedByOpen(s) && multiset(s) == multiset(controls)
      && match DataFor(timeType, controls)
         case Listing(entries) =>
           && |entries| == |controls|
           && forall i :: 0 <= i < |entries| ==>
                entries[i] == if timeType == OpenOnly then ProjectOpen(s[i]) else ProjectClose(s[i])
         case Paired(openTimes, closeTimes) =>
           && |openTimes| == |closeTimes| == |controls|
           && forall i :: 0 <= i < |openTimes| ==>
                openTimes[i] == ProjectOpen(s[i]) && closeTimes[i] == ProjectClose(s[i])
  {
    SortByOpenCorrect(controls);
    assert |SortByOpen(controls)| == |multiset(controls)| == |controls|;
  }

  /** A positive K keeps the first min(K, n) items in their order. */
  lemma TopKPositive(d: Data, k: int)
    requires k > 0
    ensures match ApplyTopK(d, k)
      case Listing(entries) => entries == d.entries[..MinInt(k, |d.entries|)]
      case Paired(openTimes, closeTimes) =>
        && openTimes == d.openTimes[..MinInt(k, |d.openTimes|)]
        && closeTimes == d.closeTimes[..MinInt(k, |d.closeTimes|)]
  {
  }

  /** A negative K follows slice semantics: it drops the last |K| items of each list. */
  lemma TopKNegative(d: Data, k: int)
    requires k < 0
    ensures match ApplyTopK(d, k)
      case Listing(entries) =>
        && entries == d.entries[..MaxInt(|d.entries| + k, 0)]
        && |entries| == MaxInt(|d.entries| - (-k), 0)
      case Paired(openTimes, closeTimes) =>
        && openTimes == d.openTimes[..MaxInt(|d.openTimes| + k, 0)]
        && closeTimes == d.closeTimes[..MaxInt(|d.closeTimes| + k, 0)]
  {
  }

  /** Top K is applied only for a present, non-zero `top`. */
  lemma TopKGate(d: Data, top: Option<int>)
    ensures top == None || top == Some(0) ==> TopKIfGiven(d, top) == d
    ensures top.Some? && top.value != 0 ==> TopKIfGiven(d, top) == ApplyTopK(d, top.value)
  {
  }

  /** The fields of a stored record as one row of the `all` CSV. */
  function RecordRow(c: StoredControl): Row {
    [Num(c.km.GetOr(0.0)), Num(c.miles.GetOr(0.0)), Text(c.location.GetOr("")),
     Text(c.open.GetOr("")), Text(c.close.GetOr(""))]
  }

  /** The CSV rows of an `all` result whose entries i project record i of `s`. */
  lemma PairedRowsOfProjections(openTimes: seq<Entry>, closeTimes: seq<Entry>, s: seq<StoredControl>)
    requires |openTimes| == |closeTimes| <= |s|
    requires forall i :: 0 <= i < |openTimes| ==> openTimes[i] == ProjectOpen(s[i])
    requires forall i :: 0 <= i < |closeTimes| ==> closeTimes[i] == ProjectClose(s[i])
    ensures var rows := CsvRows(Paired(openTimes, closeTimes));
      forall i :: 1 <= i < |rows| ==> rows[i] == RecordRow(s[i - 1])
  {
    var rows := CsvRows(Paired(openTimes, closeTimes));
    forall i | 1 <= i < |rows|
      ensures rows[i] == RecordRow(s[i - 1])
    {
      assert rows[i] == PairedRow(openTimes[i - 1], closeTimes[i - 1]);
    }
  }

  /**
   * The `all` query in CSV: a header, then, for the records in open order
   * and cut by the top-K limit, one row per record holding its own km,
   * miles, location, open and close.
   */
  lemma AllCsvRowsAreRecords(top: Option<int>, controls: seq<StoredControl>)
    requires controls != []
    ensures var r := Respond(All, "csv", top, controls);
      var s := SortByOpen(controls);
      && r.CsvBody?
      && r.rows[0] == ALL_HEADER
      && |r.rows| - 1 == |TopKIfGiven(DataFor(All, controls), top).openTimes| <= |controls|
      && forall i :: 1 <= i < |r.rows| ==> r.rows[i] == RecordRow(s[i - 1])
  {
    EntriesFromSortedRecords(All, controls);
    var s := SortByOpen(controls);
    var d := DataFor(All, controls);
    var limited := TopKIfGiven(d, top);
    assert WantsCsv("csv");
    assert Respond(All, "csv", top, controls) == CsvBody(CsvRows(limited));
    forall i | 0 <= i < |limited.openTimes|
      ensures limited.openTimes[i] == ProjectOpen(s[i]) && limited.closeTimes[i] == ProjectClose(s[i])
    {
      assert limited.openTimes[i] == d.openTimes[i];
      assert limited.closeTimes[i] == d.closeTimes[i];
    }
    PairedRowsOfProjections(limited.openTimes, limited.closeTimes, s);
  }

  /** The fields of a stored record as one row of the `open` or the `close` CSV. */
  function ListRecordRow(timeType: TimeType, c: StoredControl): Row {
    [Num(c.km.GetOr(0.0)), Num(c.miles.GetOr(0.0)), Text(c.location.GetOr("")),
     Text(if timeType == OpenOnly then c.open.GetOr("") else c.close.GetOr(""))]
  }

  /** The projection a single-list query makes of a record. */
  function ListProjection(timeType: TimeType, c: StoredControl): Entry {
    if timeType == OpenOnly then ProjectOpen(c) else ProjectClose(c)
  }

  /** The CSV rows of a list whose entry i projects record i of `s`. */
  lemma ListRowsOfProjections(timeType: TimeType, entries: seq<Entry>, s: seq<StoredControl>)
    requires timeType != All && |entries| <= |s|
    requires forall i :: 0 <= i < |entries| ==> entries[i] == ListProjection(timeType, s[i])
    ensures var rows := CsvRows(Listing(entries));
      && (entries != [] ==> rows[0] == if timeType == OpenOnly then OPEN_HEADER else CLOSE_HEADER)
      && forall i :: 1 <= i < |rows| ==> rows[i] == ListRecordRow(timeType, s[i - 1])
  {
    var rows := CsvRows(Listing(entries));
    if entries != [] {
      forall i | 1 <= i < |rows|
        ensures rows[i] == ListRecordRow(timeType, s[i - 1])
      {
        if timeType == OpenOnly {
          assert rows[i] == OpenRow(entries[i - 1]);
        } else {
          assert rows[i] == CloseRow(entries[i - 1]);
        }
      }
    }
  }

  /**
   * The `open` or `close` query in CSV: nothing when the top-K limit has
   * emptied the list, otherwise that list's header, then, for the records
   * in open order and cut by the limit, one row per record holding its own
   * km, miles, location and open or close time.
   */
  lemma ListCsvRowsAreRecords(timeType: TimeType, top: Option<int>, controls: seq<StoredControl>)
    requires timeType != All && controls != []
    ensures var r := Respond(timeType, "csv", top, controls);
      var s := SortByOpen(controls);
      var limited := TopKIfGiven(DataFor(timeType, controls), top);
      && r.CsvBody?
      && (r.rows == [] <==> limited.entries == [])
      && (r.rows != [] ==> r.rows[0] == if timeType == OpenOnly then OPEN_HEADER else CLOSE_HEADER)
      && (r.rows != [] ==> |r.rows| - 1 == |limited.entries| <= |controls|)
      && forall i :: 1 <= i < |r.rows| ==> r.rows[i] == ListRecordRow(timeType, s[i - 1])
  {
    EntriesFromSortedRecords(timeType, controls);
    var s := SortByOpen(controls);
    var d := DataFor(timeType, controls);
    var limited := TopKIfGiven(d, top);
    assert WantsCsv("csv");
    assert Respond(timeType, "csv", top, controls) == CsvBody(CsvRows(limited));
    forall i | 0 <= i < |limited.entries|
      ensures limited.entries[i] == ListProjection(timeType, s[i])
    {
      assert limited.entries[i] == d.entries[i];
    }
    ListRowsOfProjections(timeType, limited.entries, s);
  }

  /**
   * A negative `top` can empty a non-empty result after the "no data" gate:
   * the single-list CSV then has no header at all, the `all` CSV only its header.
   */
  lemma NegativeTopKPastTheGate(c: StoredControl)
    ensures Respond(OpenOnly, "CSV", Some(-1), [c]) == CsvBody([])
    ensures Respond(All, "csv", Some(-1), [c]) == CsvBody([ALL_HEADER])
  {
    assert AsciiLower("CSV") == "csv";
    assert SortByOpen([c]) == [c];
    assert DataFor(OpenOnly, [c]) == Listing([ProjectOpen(c)]);
  }
}
