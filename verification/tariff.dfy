/** What a session costs, in plain numbers: nanoseconds, UTC clock times and tariffs,
    without the engine's own constants and helpers. */
module Tariff {
  import opened Pricing

  /** Local midnight is 17:00 UTC, once every 24 hours. */
  predicate IsLocalMidnight(t: Instant) {
    t % 86_400_000_000_000 == 61_200_000_000_000
  }

  /** 1 January of year 1, 00:00 UTC. */
  predicate Unset(t: Instant) {
    t == -62_135_596_800_000_000_000
  }

  ghost predicate CrossesMidnight(checkIn: Instant, checkOut: Instant) {
    exists m: Instant :: checkIn < m <= checkOut && IsLocalMidnight(m)
  }

  /** The number of started hours in a stay of `d` nanoseconds. */
  predicate StartedHours(d: int, h: int) {
    (h - 1) * 3_600_000_000_000 < d <= h * 3_600_000_000_000
  }

  /** The parking lines of a stay: none if a time is unset or check-out is not later,
      the flat if a local midnight lies after check-in and not after check-out, and the
      started hours otherwise. */
  ghost predicate Charges(cfg: Config, checkIn: Instant, checkOut: Instant, lines: seq<Line>) {
    if Unset(checkIn) || Unset(checkOut) || checkOut <= checkIn then lines == []
    else if CrossesMidnight(checkIn, checkOut) then lines == [Line(Overnight, cfg.overnight)]
    else exists h :: StartedHours(checkOut - checkIn, h) && lines == [Line(Hourly, h * cfg.hourly)]
  }

  /** Cancelling at `at` is free: within the grace window, or the window is endless. */
  predicate Free(cfg: Config, confirmedAt: Instant, at: Instant) {
    at <= confirmedAt + cfg.grace || cfg.grace == 9_223_372_036_854_775_807
  }

  /* ---------- the calendar ---------- */

  /** The midnight the overnight rule compares with is the first local midnight after
      check-in, at most 24 hours away. */
  lemma NextMidnightIsFirst(t: Instant)
    ensures t < NextMidnight(t) <= t + 86_400_000_000_000 && IsLocalMidnight(NextMidnight(t))
    ensures forall m: Instant :: t < m < NextMidnight(t) ==> !IsLocalMidnight(m)
  {
    var day := LocalDay(t);
    var shifted := t + 25_200_000_000_000;
    assert shifted == day * 86_400_000_000_000 + shifted % 86_400_000_000_000;
    MidnightOfDay(day);
    forall m: Instant | t < m < NextMidnight(t)
      ensures !IsLocalMidnight(m)
    {
      var k := m / 86_400_000_000_000;
      assert m == k * 86_400_000_000_000 + m % 86_400_000_000_000;
      assert k + 1 <= day || k >= day;
    }
  }

  lemma MidnightOfDay(day: int)
    ensures ((day + 1) * 86_400_000_000_000 - 25_200_000_000_000) % 86_400_000_000_000 == 61_200_000_000_000
  {
    assert (day + 1) * 86_400_000_000_000 - 25_200_000_000_000 == day * 86_400_000_000_000 + 61_200_000_000_000;
  }

  lemma CrossingIsLaterDay(checkIn: Instant, checkOut: Instant)
    ensures CrossesMidnight(checkIn, checkOut) <==> LocalDay(checkOut) > LocalDay(checkIn)
  {
    NextMidnightIsFirst(checkIn);
    OvernightIffLaterDay(checkIn, checkOut);
    if CrossesMidnight(checkIn, checkOut) {
      var m: Instant :| checkIn < m <= checkOut && IsLocalMidnight(m);
      assert m >= NextMidnight(checkIn);
    }
  }

  /* ---------- charges ---------- */

  lemma HoursAreStarted(d: int)
    requires 0 < d
    ensures StartedHours(d, CeilHours(d)) && forall h :: StartedHours(d, h) ==> h == CeilHours(d)
  {
    ChargedHoursBracket(d);
  }

  lemma ParkingIsCharged(cfg: Config, s: Session)
    ensures Charges(cfg, s.checkedInAt, s.checkedOutAt, Parking(cfg, s))
  {
    CrossingIsLaterDay(s.checkedInAt, s.checkedOutAt);
    if s.checkedInAt < s.checkedOutAt {
      HoursAreStarted(s.checkedOutAt - s.checkedInAt);
    } else {
      DayIsMonotone(s.checkedOutAt, s.checkedInAt);
    }
  }

  /** The charge of a stay is determined. */
  lemma ChargeIsUnique(cfg: Config, checkIn: Instant, checkOut: Instant, a: seq<Line>, b: seq<Line>)
    requires Charges(cfg, checkIn, checkOut, a) && Charges(cfg, checkIn, checkOut, b)
    ensures a == b
  {
    if checkIn < checkOut {
      HoursAreStarted(checkOut - checkIn);
    }
  }

  lemma FreeIffWithinGrace(cfg: Config, confirmedAt: Instant, at: Instant)
    ensures Free(cfg, confirmedAt, at) <==> Since(at, confirmedAt) <= cfg.grace
  {
  }

  /** What the engine quotes for every session and tariff, in plain numbers. */
  lemma QuoteInPlainNumbers(cfg: Config, s: Session) returns (parking: seq<Line>)
    ensures Charges(cfg, s.checkedInAt, s.checkedOutAt, parking)
    ensures Quote(cfg, s) ==
              if s.cancelledAt.Some? then
                [Line(Cancellation, if Free(cfg, s.confirmedAt, s.cancelledAt.value) then 0 else cfg.cancel)]
              else if s.noShow then [Line(NoShow, cfg.noShow), Line(Booking, cfg.booking)]
              else [Line(Booking, cfg.booking)] + parking
  {
    parking := Parking(cfg, s);
    QuoteIsDecisionTable(cfg, s);
    ParkingIsCharged(cfg, s);
    if s.cancelledAt.Some? {
      FreeIffWithinGrace(cfg, s.confirmedAt, s.cancelledAt.value);
    }
  }

  /** The hourly charge is that of the started hours, and both ends of its range are
      reached: one nanosecond costs one hour, and the longest stay that crosses no
      midnight costs 24. */
  lemma FullDayIs24Hours(cfg: Config, midnight: Instant)
    requires IsLocalMidnight(midnight)
    ensures Charges(cfg, midnight, midnight + 86_399_999_999_999, [Line(Hourly, 24 * cfg.hourly)])
    ensures Charges(cfg, midnight, midnight + 1, [Line(Hourly, 1 * cfg.hourly)])
    ensures Charges(cfg, midnight, midnight + 86_400_000_000_000, [Line(Overnight, cfg.overnight)])
  {
    assert !CrossesMidnight(midnight, midnight + 86_399_999_999_999);
    assert StartedHours(86_399_999_999_999, 24) && StartedHours(1, 1);
    assert IsLocalMidnight(midnight + 86_400_000_000_000);
  }
}
