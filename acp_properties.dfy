/**
 * What the control-time rules promise, proved about the calculators of
 * module AcpTimes: the band loop against closed forms, truncation, the
 * start control, clamping, the fixed finishes, open before close, and
 * monotonicity in the control distance.
 */
module AcpProperties {
  import opened Wrappers
  import opened AcpTimes

  /** Bands that start at or after the end of the ride contribute nothing. */
  lemma {:induction false} PartsAfterRideIdle(table: seq<Band>, d: real, prev: real)
    requires Ascending(table, prev) && d <= prev
    ensures PartsMinutes(table, d, prev) == 0.0
    decreases |table|
  {
    if table != [] {
      PartsAfterRideIdle(table[1..], d, table[0].threshold);
    }
  }

  /**
   * The band loop's running remainder agrees with the reference sum: a ride
   * to `d` km covers, in each band, exactly the stretch of the band it reaches.
   */
  lemma {:induction false} BandsAsParts(table: seq<Band>, d: real, prev: real)
    requires Ascending(table, prev)
    ensures BandMinutes(table, d - prev, prev) == PartsMinutes(table, d, prev)
    decreases |table|
  {
    if table == [] {
    } else if d - prev <= 0.0 {
      PartsAfterRideIdle(table, d, prev);
    } else if d <= table[0].threshold {
      PartsAfterRideIdle(table[1..], d, table[0].threshold);
    } else {
      BandsAsParts(table[1..], d, table[0].threshold);
    }
  }

  /** The opening band loop computes the closed form band by band. */
  lemma OpenClosedForm(d: real)
    ensures BandMinutes(OPEN_TABLE, d, 0.0) == OpenReference(d)
  {
    TablesAscending();
    BandsAsParts(OPEN_TABLE, d, 0.0);
    assert OPEN_TABLE[1..][1..][1..][1..][1..] == [];
  }

  /** The closing band loop computes the closed form band by band. */
  lemma CloseClosedForm(d: real)
    ensures BandMinutes(CLOSE_TABLE, d, 0.0) == CloseReference(d)
  {
    TablesAscending();
    BandsAsParts(CLOSE_TABLE, d, 0.0);
    assert CLOSE_TABLE[1..][1..][1..] == [];
  }

  /**
   * Once the ride ends inside band `k - 1`, the remainder is used up there:
   * the bands after it contribute nothing.
   */
  lemma {:induction false} UnreachedBandsIdle(table: seq<Band>, k: nat, remaining: real, prev: real)
    requires Ascending(table, prev) && 0 < k <= |table|
    requires remaining <= table[k - 1].threshold - prev
    ensures BandMinutes(table, remaining, prev) == BandMinutes(table[..k], remaining, prev)
    decreases k
  {
    if remaining > 0.0 && k > 1 {
      var segment := Min(remaining, table[0].threshold - prev);
      assert table[..k][1..] == table[1..][..k - 1];
      UnreachedBandsIdle(table[1..], k - 1, remaining - segment, table[0].threshold);
    }
  }

  /**
   * The clamped distance never exceeds 1000 km, so the remainder is used up
   * by the 600-1000 km band and the 1000-1300 km band of either table never
   * contributes.
   */
  lemma FinalBandIdle(control: real, brevet: real)
    requires ValidBrevet(brevet)
    ensures var d := Min(control, brevet);
      && BandMinutes(OPEN_TABLE, d, 0.0) == BandMinutes(OPEN_TABLE[..4], d, 0.0)
      && BandMinutes(CLOSE_TABLE, d, 0.0) == BandMinutes(CLOSE_TABLE[..2], d, 0.0)
  {
    TablesAscending();
    UnreachedBandsIdle(OPEN_TABLE, 4, Min(control, brevet), 0.0);
    UnreachedBandsIdle(CLOSE_TABLE, 2, Min(control, brevet), 0.0);
  }

  /** Both calculators reject a bad nominal length before looking at the control, even the start control. */
  lemma InvalidBrevetRejected(control: real, brevet: real)
    requires !ValidBrevet(brevet)
    ensures OpenShift(control, brevet) == Failure(InvalidBrevetDistance(brevet))
    ensures CloseShift(control, brevet) == Failure(InvalidBrevetDistance(brevet))
  {
  }

  /** The start control (at or before 0 km) opens at the start and closes an hour later. */
  lemma StartControl(control: real, brevet: real)
    requires ValidBrevet(brevet) && control <= 0.0
    ensures OpenShift(control, brevet) == Success(Shift(0.0, 0.0))
    ensures CloseShift(control, brevet) == Success(Shift(1.0, 0.0))
    ensures CloseShift(control, brevet).value.Total() == 60.0
  {
  }

  /** A control beyond the finish gets the times of a control at the finish. */
  lemma Clamping(control: real, brevet: real)
    requires ValidBrevet(brevet) && control > brevet
    ensures OpenShift(control, brevet) == OpenShift(brevet, brevet)
    ensures CloseShift(control, brevet) == CloseShift(brevet, brevet)
  {
  }

  /** Opening times are the closed form truncated to whole hours and whole minutes. */
  lemma OpenTruncated(control: real, brevet: real)
    requires ValidBrevet(brevet) && control > 0.0
    ensures OpenShift(control, brevet).Success?
    ensures var s := OpenShift(control, brevet).value;
      && s.Total() == OpenReference(Min(control, brevet)).Floor as real
      && s.hours == s.hours.Floor as real && s.minutes == s.minutes.Floor as real
      && 0.0 <= s.minutes < 60.0
  {
    OpenClosedForm(Min(control, brevet));
  }

  /** Generic closing times are the closed form truncated to whole hours and whole minutes. */
  lemma CloseTruncated(control: real, brevet: real)
    requires ValidBrevet(brevet) && control > 0.0
    requires var d := Min(control, brevet);
      d >= 60.0 && !(d == 200.0 && brevet == 200.0) && !(d == 400.0 && brevet == 400.0)
    ensures CloseShift(control, brevet).Success?
    ensures var s := CloseShift(control, brevet).value;
      && s.Total() == CloseReference(Min(control, brevet)).Floor as real
      && s.hours == s.hours.Floor as real && s.minutes == s.minutes.Floor as real
      && 0.0 <= s.minutes < 60.0
  {
    CloseClosedForm(Min(control, brevet));
  }

  /** Under 60 km a control closes `d / 20 + 1` hours after the start, with no truncation. */
  lemma ShortControlClose(control: real, brevet: real)
    requires ValidBrevet(brevet) && 0.0 < control < 60.0
    ensures CloseShift(control, brevet) == Success(Shift(control / 20.0 + 1.0, 0.0))
    ensures CloseShift(control, brevet).value.Total() == 3.0 * control + 60.0
  {
  }

  /**
   * The full 200 km and 400 km brevets finish later than the generic rule
   * would close them; the same distances on any longer brevet keep the
   * generic 15 km/h time.
   */
  lemma FixedFinishes(brevet: real)
    requires ValidBrevet(brevet)
    ensures brevet == 200.0 ==> CloseShift(200.0, brevet) == Success(Shift(13.0, 30.0))
    ensures brevet == 400.0 ==> CloseShift(400.0, brevet) == Success(Shift(27.0, 0.0))
    ensures brevet > 200.0 ==> CloseShift(200.0, brevet) == Success(Shift(13.0, 20.0))
    ensures brevet > 400.0 ==> CloseShift(400.0, brevet) == Success(Shift(26.0, 40.0))
  {
    CloseClosedForm(200.0);
    CloseClosedForm(400.0);
  }

  /** Worked examples: the opening of a full 200 km brevet, a 50 km control, a bad nominal length. */
  lemma WorkedExamples()
    ensures OpenShift(200.0, 200.0) == Success(Shift(5.0, 52.0))
    ensures CloseShift(50.0, 200.0) == Success(Shift(3.5, 0.0))
    ensures OpenShift(100.0, 250.0) == Failure(InvalidBrevetDistance(250.0))
  {
    OpenClosedForm(200.0);
  }

  lemma PartMonotone(d1: real, d2: real, lo: real, hi: real)
    requires d1 <= d2 && lo <= hi
    ensures 0.0 <= Part(d1, lo, hi) <= Part(d2, lo, hi) <= hi - lo
  {
  }

  lemma ReferencesMonotone(d1: real, d2: real)
    requires d1 <= d2
    ensures OpenReference(d1) <= OpenReference(d2)
    ensures CloseReference(d1) <= CloseReference(d2)
  {
    PartMonotone(d1, d2, 0.0, 200.0);
    PartMonotone(d1, d2, 200.0, 400.0);
    PartMonotone(d1, d2, 400.0, 600.0);
    PartMonotone(d1, d2, 600.0, 1000.0);
    PartMonotone(d1, d2, 1000.0, 1300.0);
    PartMonotone(d1, d2, 0.0, 600.0);
  }

  /** Riding at the maximum speeds never takes longer than riding at the minimum speeds. */
  lemma ReferencesOrdered(d: real)
    ensures OpenReference(d) <= CloseReference(d)
  {
    PartMonotone(d, d, 0.0, 200.0);
    PartMonotone(d, d, 200.0, 400.0);
    PartMonotone(d, d, 400.0, 600.0);
    PartMonotone(d, d, 600.0, 1000.0);
    PartMonotone(d, d, 1000.0, 1300.0);
    assert Part(d, 0.0, 600.0) == Part(d, 0.0, 200.0) + Part(d, 200.0, 400.0) + Part(d, 400.0, 600.0);
  }

  lemma FloorMonotone(x: real, y: real)
    requires x <= y
    ensures x.Floor <= y.Floor
  {
  }

  /** Every control opens no later than it closes. */
  lemma OpenNotAfterClose(control: real, brevet: real)
    requires ValidBrevet(brevet)
    ensures OpenShift(control, brevet).value.Total() <= CloseShift(control, brevet).value.Total()
  {
    if control > 0.0 {
      var d := Min(control, brevet);
      OpenClosedForm(d);
      CloseClosedForm(d);
      ReferencesOrdered(d);
      if d < 60.0 {
        assert OpenReference(d) == 60.0 * d / 34.0;
      } else if d == 200.0 && brevet == 200.0 {
        assert CloseReference(200.0) == 800.0;
      } else if d == 400.0 && brevet == 400.0 {
        assert CloseReference(400.0) == 1600.0;
      } else {
        FloorMonotone(OpenReference(d), CloseReference(d));
      }
    }
  }

  /** On a given brevet, a control further along never opens earlier. */
  lemma OpenMonotone(control1: real, control2: real, brevet: real)
    requires ValidBrevet(brevet) && control1 <= control2
    ensures OpenShift(control1, brevet).value.Total() <= OpenShift(control2, brevet).value.Total()
  {
    if control1 > 0.0 {
      var d1, d2 := Min(control1, brevet), Min(control2, brevet);
      OpenClosedForm(d1);
      OpenClosedForm(d2);
      ReferencesMonotone(d1, d2);
      FloorMonotone(OpenReference(d1), OpenReference(d2));
    }
  }

  /** Every closing shift is at least an hour; from 60 km on it is at least four hours. */
  lemma CloseLowerBound(control: real, brevet: real)
    requires ValidBrevet(brevet)
    ensures CloseShift(control, brevet).value.Total() >= 60.0
    ensures control > 0.0 ==> CloseShift(control, brevet).value.Total() > 60.0
    ensures Min(control, brevet) >= 60.0 ==> CloseShift(control, brevet).value.Total() >= 240.0
  {
    var d := Min(control, brevet);
    if control > 0.0 && d >= 60.0 {
      CloseClosedForm(d);
      ReferencesMonotone(60.0, d);
      assert CloseReference(60.0) == 240.0;
      FloorMonotone(240.0, CloseReference(d));
    }
  }

  /** On a given brevet, a control further along never closes earlier. */
  lemma CloseMonotone(control1: real, control2: real, brevet: real)
    requires ValidBrevet(brevet) && control1 <= control2
    ensures CloseShift(control1, brevet).value.Total() <= CloseShift(control2, brevet).value.Total()
  {
    CloseLowerBound(control2, brevet);
    if control1 > 0.0 {
      var d1, d2 := Min(control1, brevet), Min(control2, brevet);
      if d1 >= 60.0 && !(d1 == brevet && (brevet == 200.0 || brevet == 400.0)) {
        CloseClosedForm(d1);
        CloseClosedForm(d2);
        ReferencesMonotone(d1, d2);
        FloorMonotone(CloseReference(d1), CloseReference(d2));
        if d2 == brevet && (brevet == 200.0 || brevet == 400.0) {
          assert CloseReference(200.0) == 800.0 && CloseReference(400.0) == 1600.0;
        }
      }
    }
  }
}
