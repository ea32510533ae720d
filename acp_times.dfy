/**
 * Opening and closing times of the controls of an ACP-sanctioned brevet,
 * after the RUSA control-time algorithm (DockerRestAPI/laptop/acp_times.py).
 *
 * A time is modelled as the shift applied to the brevet start; the start
 * timestamp, its time zone and calendar arithmetic stay outside the model.
 * Distances and speeds are exact reals.
 */
module AcpTimes {
  import opened Wrappers

  /** The nominal brevet lengths ACP sanctions, in km. */
  const VALID_DISTANCES: seq<real> := [200.0, 300.0, 400.0, 600.0, 1000.0]

  predicate ValidBrevet(brevet: real) {
    brevet in VALID_DISTANCES
  }

  /** The ValueError both calculators raise for any other nominal length. */
  datatype Error = InvalidBrevetDistance(brevet: real)

  /** The arguments of the `shift(hours=…, minutes=…)` applied to the start time. */
  datatype Shift = Shift(hours: real, minutes: real) {
    /** The shift as minutes after the start. */
    function Total(): real {
      hours * 60.0 + minutes
    }
  }

  /** One row of a speed table: the band ends at `threshold` km and is ridden at `speed` km/h. */
  datatype Band = Band(threshold: real, speed: real)

  /** Maximum speeds: they give the opening times. */
  const OPEN_TABLE: seq<Band> :=
    [Band(200.0, 34.0), Band(400.0, 32.0), Band(600.0, 30.0), Band(1000.0, 28.0), Band(1300.0, 26.0)]

  /** Minimum speeds: they give the generic closing times. */
  const CLOSE_TABLE: seq<Band> :=
    [Band(600.0, 15.0), Band(1000.0, 11.428), Band(1300.0, 13.333)]

  function Min(x: real, y: real): real {
    if x <= y then x else y
  }

  function Max(x: real, y: real): real {
    if x <= y then y else x
  }

  /** The bands of `table` follow each other from `prev` km on, none runs backwards, every speed is positive. */
  predicate Ascending(table: seq<Band>, prev: real) {
    && (forall i :: 0 <= i < |table| ==> table[i].speed > 0.0)
    && (|table| > 0 ==> prev <= table[0].threshold)
    && (forall i, j :: 0 <= i < j < |table| ==> table[i].threshold <= table[j].threshold)
  }

  /**
   * The minutes needed to ride `remaining` km through the bands of `table`,
   * the first of which starts at `prev` km: each band takes the smaller of
   * what is left and its own width, at its own speed, and the ride stops
   * once nothing is left.
   */
  function BandMinutes(table: seq<Band>, remaining: real, prev: real): (m: real)
    requires Ascending(table, prev)
    ensures m >= 0.0
    decreases |table|
  {
    if table == [] || remaining <= 0.0 then 0.0
    else
      var segment := Min(remaining, table[0].threshold - prev);
      segment / table[0].speed * 60.0 + BandMinutes(table[1..], remaining - segment, table[0].threshold)
  }

  /** The stretch of a ride of `d` km that lies between `lo` and `hi` km. */
  function Part(d: real, lo: real, hi: real): real {
    if d <= lo then 0.0 else if d <= hi then d - lo else hi - lo
  }

  /** Reference definition: each band contributes the stretch of the ride inside it, at its speed. */
  function PartsMinutes(table: seq<Band>, d: real, prev: real): real
    requires Ascending(table, prev)
    decreases |table|
  {
    if table == [] then 0.0
    else Part(d, prev, table[0].threshold) / table[0].speed * 60.0 + PartsMinutes(table[1..], d, table[0].threshold)
  }

  /** Closed form of the opening time of a control `d` km along, before truncation. */
  function OpenReference(d: real): real {
    60.0 * (Part(d, 0.0, 200.0) / 34.0 + Part(d, 200.0, 400.0) / 32.0 + Part(d, 400.0, 600.0) / 30.0
            + Part(d, 600.0, 1000.0) / 28.0 + Part(d, 1000.0, 1300.0) / 26.0)
  }

  /** Closed form of the generic closing time of a control `d` km along, before truncation. */
  function CloseReference(d: real): real {
    60.0 * (Part(d, 0.0, 600.0) / 15.0 + Part(d, 600.0, 1000.0) / 11.428 + Part(d, 1000.0, 1300.0) / 13.333)
  }

  /**
   * Whole hours and whole minutes of a non-negative number of minutes, as
   * `int(total // 60)` and `int(total % 60)` compute them: the seconds are
   * dropped, never rounded.
   */
  function Truncate(total: real): (s: Shift)
    requires total >= 0.0
    ensures s.hours == s.hours.Floor as real && s.minutes == s.minutes.Floor as real
    ensures 0.0 <= s.minutes < 60.0
    ensures s.Total() == total.Floor as real
  {
    var hours := (total / 60.0).Floor;
    var minutes := (total - 60.0 * hours as real).Floor;
    assert 60.0 * hours as real <= total < 60.0 * hours as real + 60.0;
    FloorIs(total, 60 * hours + minutes);
    Shift(hours as real, minutes as real)
  }

  /** `k` is the floor of `x` when it is the integer just below it. */
  lemma FloorIs(x: real, k: int)
    requires k as real <= x < k as real + 1.0
    ensures x.Floor == k
  {
  }

  /** The opening shift of a control `control` km along a brevet of nominal length `brevet`. */
  function OpenShift(control: real, brevet: real): (r: Result<Shift, Error>)
    ensures r.Failure? <==> !ValidBrevet(brevet)
    ensures r.Failure? ==> r.error == InvalidBrevetDistance(brevet)
  {
    if !ValidBrevet(brevet) then Failure(InvalidBrevetDistance(brevet))
    else if control <= 0.0 then Success(Shift(0.0, 0.0))
    else Success(Truncate(BandMinutes(OPEN_TABLE, Min(control, brevet), 0.0)))
  }

  /** The closing shift of a control `control` km along a brevet of nominal length `brevet`. */
  function CloseShift(control: real, brevet: real): (r: Result<Shift, Error>)
    ensures r.Failure? <==> !ValidBrevet(brevet)
    ensures r.Failure? ==> r.error == InvalidBrevetDistance(brevet)
  {
    if !ValidBrevet(brevet) then Failure(InvalidBrevetDistance(brevet))
    else if control <= 0.0 then Success(Shift(1.0, 0.0))
    else
      var d := Min(control, brevet);
      if d < 60.0 then Success(Shift(d / 20.0 + 1.0, 0.0))
      else if d == 200.0 && brevet == 200.0 then Success(Shift(13.0, 30.0))
      else if d == 400.0 && brevet == 400.0 then Success(Shift(27.0, 0.0))
      else Success(Truncate(BandMinutes(CLOSE_TABLE, d, 0.0)))
  }

  /** The band loop of both calculators: folds the speed table into a running total of minutes. */
  method SegmentMinutes(table: seq<Band>, dist: real) returns (total: real)
    requires Ascending(table, 0.0)
    ensures total == BandMinutes(table, dist, 0.0)
  {
    total := 0.0;
    var remaining := dist;
    var prev := 0.0;
    for i := 0 to |table|
      invariant prev == if i == 0 then 0.0 else table[i - 1].threshold
      invariant remaining == if i == 0 then dist else Max(dist - prev, 0.0)
      invariant Ascending(table[i..], prev)
      invariant total + BandMinutes(table[i..], remaining, prev) == BandMinutes(table, dist, 0.0)
    {
      if remaining <= 0.0 {
        break;
      }
      var segment := Min(remaining, table[i].threshold - prev);
      assert table[i..][1..] == table[i + 1..];
      total := total + segment / table[i].speed * 60.0;
      remaining := remaining - segment;
      prev := table[i].threshold;
    }
  }

  /** `open_time`: validation, the start control, clamping, the band loop, truncation. */
  method OpenTime(control: real, brevet: real) returns (r: Result<Shift, Error>)
    ensures r == OpenShift(control, brevet)
  {
    if brevet !in VALID_DISTANCES {
      return Failure(InvalidBrevetDistance(brevet));
    }
    if control <= 0.0 {
      return Success(Shift(0.0, 0.0));
    }
    var actual := Min(control, brevet);
    TablesAscending();
    var total := SegmentMinutes(OPEN_TABLE, actual);
    r := Success(Truncate(total));
  }

  /** `close_time`: validation, the start control, clamping, the special cases in order, the band loop, truncation. */
  method CloseTime(control: real, brevet: real) returns (r: Result<Shift, Error>)
    ensures r == CloseShift(control, brevet)
  {
    if brevet !in VALID_DISTANCES {
      return Failure(InvalidBrevetDistance(brevet));
    }
    if control <= 0.0 {
      return Success(Shift(1.0, 0.0));
    }
    var actual := Min(control, brevet);
    if actual < 60.0 {
      return Success(Shift(actual / 20.0 + 1.0, 0.0));
    }
    if actual == 200.0 && brevet == 200.0 {
      return Success(Shift(13.0, 30.0));
    }
    if actual == 400.0 && brevet == 400.0 {
      return Success(Shift(27.0, 0.0));
    }
    TablesAscending();
    var total := SegmentMinutes(CLOSE_TABLE, actual);
    r := Success(Truncate(total));
  }

  lemma TablesAscending()
    ensures Ascending(OPEN_TABLE, 0.0) && Ascending(CLOSE_TABLE, 0.0)
  {
  }
}
