/** The pricing engine: five rules folded in a fixed order over a parking session.
    Instants are nanoseconds since the Unix epoch and the zone is the fixed UTC+7
    offset of Jakarta. */
module Pricing {

  datatype Option<+T> = None | Some(value: T)

  datatype LineKind = Booking | Hourly | Overnight | Cancellation | NoShow

  datatype Line = Line(kind: LineKind, amount: int)

  type Instant = int

  /** The zero value of a Go timestamp, 1 January of year 1 UTC. */
  const ZERO_TIME: Instant := -62_135_596_800_000_000_000
  const HOUR := 3_600_000_000_000
  const DAY := 86_400_000_000_000
  const JAKARTA_OFFSET := 25_200_000_000_000
  const MIN_DURATION := -9_223_372_036_854_775_808
  const MAX_DURATION := 9_223_372_036_854_775_807

  /** A signed 64-bit count of nanoseconds. */
  type Duration = d: int | MIN_DURATION <= d <= MAX_DURATION

  /** Tariffs, in rupiah, and the free-cancellation window. */
  datatype Config = Config(
    booking: nat, hourly: nat, overnight: nat, cancel: nat, noShow: nat, grace: Duration)

  datatype Session = Session(
    confirmedAt: Instant, checkedInAt: Instant, checkedOutAt: Instant,
    cancelledAt: Option<Instant>, noShow: bool)

  /** Difference of two instants; a Go duration saturates at 64 bits. */
  function Since(later: Instant, earlier: Instant): Duration {
    var d := later - earlier;
    if d < MIN_DURATION then MIN_DURATION else if d > MAX_DURATION then MAX_DURATION else d
  }

  function LocalDay(t: Instant): int {
    (t + JAKARTA_OFFSET) / DAY
  }

  /** Midnight that ends the local day of `t`. */
  function NextMidnight(t: Instant): Instant {
    (LocalDay(t) + 1) * DAY - JAKARTA_OFFSET
  }

  function CeilHours(d: int): int {
    (d + HOUR - 1) / HOUR
  }

  predicate HasKind(lines: seq<Line>, k: LineKind) {
    exists i :: 0 <= i < |lines| && lines[i].kind == k
  }

  function Sum(lines: seq<Line>): int {
    if lines == [] then 0 else Sum(lines[..|lines| - 1]) + lines[|lines| - 1].amount
  }

  /* ---------- the five rules ---------- */

  datatype Rule = CancellationRule | NoShowRule | BookingRule | OvernightRule | HourlyRule

  const DEFAULT_RULES: seq<Rule> :=
    [CancellationRule, NoShowRule, BookingRule, OvernightRule, HourlyRule]

  function ApplyCancellation(s: Session, cfg: Config): seq<Line> {
    match s.cancelledAt
    case None => []
    case Some(at) =>
      if Since(at, s.confirmedAt) <= cfg.grace
      then [Line(Cancellation, 0)]
      else [Line(Cancellation, cfg.cancel)]
  }

  function ApplyNoShow(s: Session, prior: seq<Line>, cfg: Config): seq<Line> {
    if !s.noShow then []
    else if HasKind(prior, Cancellation) then []
    else [Line(NoShow, cfg.noShow)]
  }

  function ApplyBooking(prior: seq<Line>, cfg: Config): seq<Line> {
    if HasKind(prior, Cancellation) then [] else [Line(Booking, cfg.booking)]
  }

  function ApplyOvernight(s: Session, prior: seq<Line>, cfg: Config): seq<Line> {
    if s.checkedInAt == ZERO_TIME || s.checkedOutAt == ZERO_TIME then []
    else if HasKind(prior, Cancellation) || HasKind(prior, NoShow) then []
    else if s.checkedOutAt < NextMidnight(s.checkedInAt) then []
    else [Line(Overnight, cfg.overnight)]
  }

  function ApplyHourly(s: Session, prior: seq<Line>, cfg: Config): seq<Line> {
    if s.checkedInAt == ZERO_TIME || s.checkedOutAt == ZERO_TIME then []
    else if HasKind(prior, Cancellation) || HasKind(prior, NoShow) || HasKind(prior, Overnight) then []
    else
      var dur := Since(s.checkedOutAt, s.checkedInAt);
      if dur <= 0 then []
      else
        var hours := CeilHours(dur);
        [Line(Hourly, (if hours < 1 then 1 else hours) * cfg.hourly)]
  }

  function ApplyRule(rule: Rule, s: Session, prior: seq<Line>, cfg: Config): seq<Line> {
    match rule
    case CancellationRule => ApplyCancellation(s, cfg)
    case NoShowRule => ApplyNoShow(s, prior, cfg)
    case BookingRule => ApplyBooking(prior, cfg)
    case OvernightRule => ApplyOvernight(s, prior, cfg)
    case HourlyRule => ApplyHourly(s, prior, cfg)
  }

  function Fold(rules: seq<Rule>, s: Session, prior: seq<Line>, cfg: Config): seq<Line> {
    if rules == [] then prior
    else Fold(rules[1..], s, prior + ApplyRule(rules[0], s, prior, cfg), cfg)
  }

  /** What the default engine quotes for a session. */
  function Quote(cfg: Config, s: Session): seq<Line> {
    Fold(DEFAULT_RULES, s, [], cfg)
  }

  method SearchKind(prior: seq<Line>, k: LineKind) returns (found: bool)
    ensures found <==> exists i :: 0 <= i < |prior| && prior[i].kind == k
  {
    for i := 0 to |prior|
      invariant forall j :: 0 <= j < i ==> prior[j].kind != k
    {
      if prior[i].kind == k {
        return true;
      }
    }
    return false;
  }

  class Engine {
    const cfg: Config
    const rules: seq<Rule>

    constructor Default(cfg: Config)
      ensures this.cfg == cfg && rules == DEFAULT_RULES
    {
      this.cfg := cfg;
      this.rules := DEFAULT_RULES;
    }

    method Apply(s: Session) returns (out: seq<Line>)
      ensures out == Fold(rules, s, [], cfg)
      ensures rules == DEFAULT_RULES ==> out == DecisionTable(cfg, s)
    {
      out := [];
      for i := 0 to |rules|
        invariant Fold(rules[i..], s, out, cfg) == Fold(rules, s, [], cfg)
      {
        assert rules[i..][1..] == rules[i + 1..];
        out := out + ApplyRule(rules[i], s, out, cfg);
      }
      if rules == DEFAULT_RULES {
        QuoteIsDecisionTable(cfg, s);
      }
    }
  }

  /* ---------- the decision table the fold must agree with ---------- */

  /** The parking charge of a session that was neither cancelled nor missed, by local
      calendar day. */
  function Parking(cfg: Config, s: Session): seq<Line> {
    if s.checkedInAt == ZERO_TIME || s.checkedOutAt == ZERO_TIME then []
    else if LocalDay(s.checkedOutAt) > LocalDay(s.checkedInAt) then [Line(Overnight, cfg.overnight)]
    else if s.checkedOutAt > s.checkedInAt
    then [Line(Hourly, CeilHours(s.checkedOutAt - s.checkedInAt) * cfg.hourly)]
    else []
  }

  function DecisionTable(cfg: Config, s: Session): seq<Line> {
    if s.cancelledAt.Some? then
      [Line(Cancellation, if Since(s.cancelledAt.value, s.confirmedAt) <= cfg.grace then 0 else cfg.cancel)]
    else if s.noShow then
      [Line(NoShow, cfg.noShow), Line(Booking, cfg.booking)]
    else
      [Line(Booking, cfg.booking)] + Parking(cfg, s)
  }

  lemma OvernightIffLaterDay(checkIn: Instant, checkOut: Instant)
    ensures checkOut >= NextMidnight(checkIn) <==> LocalDay(checkOut) > LocalDay(checkIn)
  {
    var shifted := checkOut + JAKARTA_OFFSET;
    assert shifted == LocalDay(checkOut) * DAY + shifted % DAY;
  }

  lemma ChargedHoursBracket(d: int)
    requires 0 < d
    ensures 1 <= CeilHours(d)
    ensures (CeilHours(d) - 1) * HOUR < d <= CeilHours(d) * HOUR
  {
    var n := d + HOUR - 1;
    assert n == CeilHours(d) * HOUR + n % HOUR;
  }

  /** A session that ends on the local day it began lasts less than a day, so it is
      charged between 1 and 24 hours. */
  lemma SameDayAtMost24Hours(checkIn: Instant, checkOut: Instant)
    requires checkIn < checkOut && LocalDay(checkOut) <= LocalDay(checkIn)
    ensures checkOut - checkIn < DAY
    ensures 1 <= CeilHours(checkOut - checkIn) <= 24
  {
    OvernightIffLaterDay(checkIn, checkOut);
    var shifted := checkIn + JAKARTA_OFFSET;
    assert shifted == LocalDay(checkIn) * DAY + shifted % DAY;
    ChargedHoursBracket(checkOut - checkIn);
  }

  lemma QuoteIsDecisionTable(cfg: Config, s: Session)
    ensures Quote(cfg, s) == DecisionTable(cfg, s)
  {
    var l1 := ApplyRule(CancellationRule, s, [], cfg);
    var l2 := l1 + ApplyRule(NoShowRule, s, l1, cfg);
    var l3 := l2 + ApplyRule(BookingRule, s, l2, cfg);
    var l4 := l3 + ApplyRule(OvernightRule, s, l3, cfg);
    var l5 := l4 + ApplyRule(HourlyRule, s, l4, cfg);
    FoldFive(cfg, s, l1, l2, l3, l4, l5);
    if s.cancelledAt.Some? {
      assert l1[0].kind == Cancellation;
      assert l2[0].kind == Cancellation && l3[0].kind == Cancellation && l4[0].kind == Cancellation;
    } else if s.noShow {
      assert l2 == [Line(NoShow, cfg.noShow)];
      assert l3[0].kind == NoShow && l4[0].kind == NoShow;
    } else {
      assert l3 == [Line(Booking, cfg.booking)];
      QuoteParking(cfg, s);
    }
  }

  lemma FoldFive(cfg: Config, s: Session, l1: seq<Line>, l2: seq<Line>, l3: seq<Line>, l4: seq<Line>, l5: seq<Line>)
    requires l1 == ApplyRule(CancellationRule, s, [], cfg)
    requires l2 == l1 + ApplyRule(NoShowRule, s, l1, cfg)
    requires l3 == l2 + ApplyRule(BookingRule, s, l2, cfg)
    requires l4 == l3 + ApplyRule(OvernightRule, s, l3, cfg)
    requires l5 == l4 + ApplyRule(HourlyRule, s, l4, cfg)
    ensures Quote(cfg, s) == l5
  {
    assert [] + l1 == l1;
    assert DEFAULT_RULES[1..] == [NoShowRule, BookingRule, OvernightRule, HourlyRule];
    assert Quote(cfg, s) == Fold([NoShowRule, BookingRule, OvernightRule, HourlyRule], s, l1, cfg);
    assert [NoShowRule, BookingRule, OvernightRule, HourlyRule][1..] == [BookingRule, OvernightRule, HourlyRule];
    assert Quote(cfg, s) == Fold([BookingRule, OvernightRule, HourlyRule], s, l2, cfg);
    assert [BookingRule, OvernightRule, HourlyRule][1..] == [OvernightRule, HourlyRule];
    assert Quote(cfg, s) == Fold([OvernightRule, HourlyRule], s, l3, cfg);
    assert [OvernightRule, HourlyRule][1..] == [HourlyRule];
    assert Quote(cfg, s) == Fold([HourlyRule], s, l4, cfg);
    assert [HourlyRule][1..] == [];
    assert Fold([HourlyRule], s, l4, cfg) == Fold([], s, l5, cfg);
  }

  lemma QuoteParking(cfg: Config, s: Session)
    ensures
      var booked := [Line(Booking, cfg.booking)];
      var night := booked + ApplyOvernight(s, booked, cfg);
      night + ApplyHourly(s, night, cfg) == booked + Parking(cfg, s)
  {
    var booked := [Line(Booking, cfg.booking)];
    var night := booked + ApplyOvernight(s, booked, cfg);
    if s.checkedInAt != ZERO_TIME && s.checkedOutAt != ZERO_TIME {
      OvernightIffLaterDay(s.checkedInAt, s.checkedOutAt);
      if LocalDay(s.checkedOutAt) > LocalDay(s.checkedInAt) {
        assert night[1].kind == Overnight;
      } else if s.checkedInAt < s.checkedOutAt {
        SameDayAtMost24Hours(s.checkedInAt, s.checkedOutAt);
        assert night == booked;
      }
    }
  }

  /* ---------- consequences for what a driver pays ---------- */

  /** The largest parking charge any session can attract. */
  function ParkingCap(cfg: Config): nat {
    if cfg.overnight > 24 * cfg.hourly then cfg.overnight else 24 * cfg.hourly
  }

  lemma ParkingIsBounded(cfg: Config, s: Session)
    ensures |Parking(cfg, s)| <= 1
    ensures forall i :: 0 <= i < |Parking(cfg, s)| ==>
              Parking(cfg, s)[i].kind in {Overnight, Hourly} && 0 <= Parking(cfg, s)[i].amount <= ParkingCap(cfg)
  {
    if s.checkedInAt < s.checkedOutAt && LocalDay(s.checkedOutAt) <= LocalDay(s.checkedInAt) {
      SameDayAtMost24Hours(s.checkedInAt, s.checkedOutAt);
      MulMono(CeilHours(s.checkedOutAt - s.checkedInAt), 24, cfg.hourly);
    }
  }

  lemma MulMono(a: int, b: int, c: nat)
    requires a <= b
    ensures a * c <= b * c
  {
  }

  /** No kind of line is quoted twice, and at most one line is not the booking fee. */
  lemma QuoteKindsNeverRepeat(cfg: Config, s: Session)
    ensures forall i, j :: 0 <= i < j < |Quote(cfg, s)| ==> Quote(cfg, s)[i].kind != Quote(cfg, s)[j].kind
    ensures forall i, j :: 0 <= i < j < |Quote(cfg, s)| ==> Quote(cfg, s)[i].kind == Booking || Quote(cfg, s)[j].kind == Booking
  {
    QuoteIsDecisionTable(cfg, s);
    ParkingIsBounded(cfg, s);
  }

  function Stay(checkIn: Instant, checkOut: Instant): Session {
    Session(ZERO_TIME, checkIn, checkOut, None, false)
  }

  lemma StayTotal(cfg: Config, checkIn: Instant, checkOut: Instant)
    requires checkIn != ZERO_TIME && checkOut != ZERO_TIME && checkIn < checkOut
    ensures Sum(Quote(cfg, Stay(checkIn, checkOut))) == cfg.booking +
              (if checkOut >= NextMidnight(checkIn) then cfg.overnight
               else CeilHours(checkOut - checkIn) * cfg.hourly)
  {
    QuoteIsDecisionTable(cfg, Stay(checkIn, checkOut));
    OvernightIffLaterDay(checkIn, checkOut);
    var q := Quote(cfg, Stay(checkIn, checkOut));
    assert |q| == 2;
    assert q[..1] == [q[0]];
    assert Sum(q[..1]) == q[0].amount by { assert q[..1][..0] == []; }
  }

  /** Before midnight the bill never falls as check-out moves later; from midnight on
      it no longer depends on check-out. */
  lemma BillGrowsUntilMidnightThenIsFlat(cfg: Config, checkIn: Instant, early: Instant, late: Instant)
    requires checkIn != ZERO_TIME && early != ZERO_TIME && late != ZERO_TIME
    requires checkIn < early <= late
    ensures late < NextMidnight(checkIn) ==>
              Sum(Quote(cfg, Stay(checkIn, early))) <= Sum(Quote(cfg, Stay(checkIn, late)))
    ensures NextMidnight(checkIn) <= early ==>
              Sum(Quote(cfg, Stay(checkIn, early))) == Sum(Quote(cfg, Stay(checkIn, late)))
    ensures early < NextMidnight(checkIn) <= late ==>
              (Sum(Quote(cfg, Stay(checkIn, early))) <= Sum(Quote(cfg, Stay(checkIn, late)))
               <==> CeilHours(early - checkIn) * cfg.hourly <= cfg.overnight)
  {
    StayTotal(cfg, checkIn, early);
    StayTotal(cfg, checkIn, late);
    assert CeilHours(early - checkIn) <= CeilHours(late - checkIn);
    MulMono(CeilHours(early - checkIn), CeilHours(late - checkIn), cfg.hourly);
  }

  function ParkingCharge(cfg: Config, checkIn: Instant, checkOut: Instant): int {
    Sum(Parking(cfg, Stay(checkIn, checkOut)))
  }

  lemma SplitHours(checkIn: Instant, middle: Instant, checkOut: Instant)
    requires checkIn < middle < checkOut
    ensures CeilHours(checkOut - checkIn)
         <= CeilHours(middle - checkIn) + CeilHours(checkOut - middle)
         <= CeilHours(checkOut - checkIn) + 1
  {
    ChargedHoursBracket(checkOut - checkIn);
    ChargedHoursBracket(middle - checkIn);
    ChargedHoursBracket(checkOut - middle);
  }

  lemma SameDayCharge(cfg: Config, checkIn: Instant, checkOut: Instant)
    requires checkIn != ZERO_TIME && checkOut != ZERO_TIME
    requires checkIn < checkOut && LocalDay(checkOut) <= LocalDay(checkIn)
    ensures ParkingCharge(cfg, checkIn, checkOut) == CeilHours(checkOut - checkIn) * cfg.hourly
  {
    var p := Parking(cfg, Stay(checkIn, checkOut));
    assert p == [Line(Hourly, CeilHours(checkOut - checkIn) * cfg.hourly)];
    assert p[..|p| - 1] == [];
    assert Sum(p) == Sum(p[..|p| - 1]) + p[0].amount;
  }

  /** Splitting a same-day stay in two never makes parking cheaper and adds at most one
      hour's charge. */
  lemma SplittingAddsAtMostOneHour(cfg: Config, checkIn: Instant, middle: Instant, checkOut: Instant)
    requires checkIn != ZERO_TIME && middle != ZERO_TIME && checkOut != ZERO_TIME
    requires checkIn < middle < checkOut && LocalDay(checkIn) == LocalDay(checkOut)
    ensures ParkingCharge(cfg, checkIn, checkOut)
         <= ParkingCharge(cfg, checkIn, middle) + ParkingCharge(cfg, middle, checkOut)
         <= ParkingCharge(cfg, checkIn, checkOut) + cfg.hourly
  {
    DayIsMonotone(checkIn, middle);
    DayIsMonotone(middle, checkOut);
    SplitHours(checkIn, middle, checkOut);
    SameDayCharge(cfg, checkIn, middle);
    SameDayCharge(cfg, middle, checkOut);
    SameDayCharge(cfg, checkIn, checkOut);
    SplitCost(CeilHours(checkOut - checkIn), CeilHours(middle - checkIn), CeilHours(checkOut - middle), cfg.hourly);
  }

  lemma DayIsMonotone(early: Instant, late: Instant)
    requires early <= late
    ensures LocalDay(early) <= LocalDay(late)
  {
  }

  lemma SplitCost(whole: int, one: int, two: int, rate: nat)
    requires whole <= one + two <= whole + 1
    ensures whole * rate <= one * rate + two * rate <= whole * rate + rate
  {
    MulMono(whole, one + two, rate);
    MulMono(one + two, whole + 1, rate);
    assert (one + two) * rate == one * rate + two * rate;
  }
}
