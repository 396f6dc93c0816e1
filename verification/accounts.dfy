/** One invoice seen on its own: its row, its lines in insertion order and the outbox
    rows written for it. This is the level at which money is reasoned about; the
    tables of module Ledger are shown to hold one account per invoice. */
module Accounts {
  import opened Pricing

  datatype Status = Open | Closed | Paid | Void

  /** Payload of an outbox row. `Opened` travels as billing.invoice.opened.v1, the other
      two as billing.invoice.closed.v1. */
  datatype Announcement =
    | Opened(fee: int)
    | FeeAdded(kind: LineKind, amount: int)
    | ClosedWith(quote: seq<Line>)

  datatype Invoice = Invoice(
    reservation: string, driver: string, status: Status, total: int, key: string,
    closedAt: Option<Instant>)

  datatype Account = Account(row: Invoice, lines: seq<Line>, events: seq<Announcement>)

  /* ---------- sums and counts ---------- */

  /** Sum of the lines that closing charges on top of the booking fee. */
  function ChargeSum(lines: seq<Line>): int {
    if lines == [] then 0 else ChargeSum(lines[..|lines| - 1]) + ChargeOf(lines[|lines| - 1])
  }

  function ChargeOf(l: Line): int {
    if l.kind == Booking then 0 else l.amount
  }

  function Count(lines: seq<Line>, k: LineKind): nat {
    if lines == [] then 0
    else Count(lines[..|lines| - 1], k) + if lines[|lines| - 1].kind == k then 1 else 0
  }

  /** Rupiah that a reader of the broker can attribute to an announcement. */
  function Worth(e: Announcement): int {
    match e
    case Opened(fee) => fee
    case FeeAdded(_, amount) => amount
    case ClosedWith(quote) => ChargeSum(quote)
  }

  function Announced(events: seq<Announcement>): int {
    if events == [] then 0 else Announced(events[..|events| - 1]) + Worth(events[|events| - 1])
  }

  lemma SumSnoc(lines: seq<Line>, l: Line)
    ensures Sum(lines + [l]) == Sum(lines) + l.amount
    ensures ChargeSum(lines + [l]) == ChargeSum(lines) + ChargeOf(l)
    ensures forall k :: Count(lines + [l], k) == Count(lines, k) + if l.kind == k then 1 else 0
  {
    assert (lines + [l])[..|lines|] == lines;
  }

  lemma AnnouncedSnoc(events: seq<Announcement>, e: Announcement)
    ensures Announced(events + [e]) == Announced(events) + Worth(e)
  {
    assert (events + [e])[..|events|] == events;
  }

  lemma {:induction false} CountPositiveIffHasKind(lines: seq<Line>, k: LineKind)
    ensures Count(lines, k) > 0 <==> HasKind(lines, k)
  {
    if lines != [] {
      var init := lines[..|lines| - 1];
      CountPositiveIffHasKind(init, k);
      if HasKind(init, k) {
        var i :| 0 <= i < |init| && init[i].kind == k;
        assert lines[i].kind == k;
      }
      if HasKind(lines, k) && lines[|lines| - 1].kind != k {
        var i :| 0 <= i < |lines| && lines[i].kind == k;
        assert init[i].kind == k;
      }
    }
  }

  /* ---------- transitions ---------- */

  /** Kinds covered by the partial unique index on invoice lines. */
  predicate OneOff(k: LineKind) {
    k == Cancellation || k == NoShow
  }

  predicate Violates(lines: seq<Line>, l: Line) {
    OneOff(l.kind) && HasKind(lines, l.kind)
  }

  /** Lines after inserting a batch, skipping booking lines; None when a row breaks the
      unique index. */
  function Insert(lines: seq<Line>, batch: seq<Line>): Option<seq<Line>>
    decreases |batch|
  {
    if batch == [] then Some(lines)
    else if batch[0].kind == Booking then Insert(lines, batch[1..])
    else if Violates(lines, batch[0]) then None
    else Insert(lines + [batch[0]], batch[1..])
  }

  function OpenAccount(reservation: string, driver: string, key: string, fee: int, evt: Announcement): Account {
    Account(Invoice(reservation, driver, Open, fee, key, None), [Line(Booking, fee)], [evt])
  }

  /** None is a unique violation, which rolls the transaction back. */
  function CloseAccount(a: Account, batch: seq<Line>, evt: Announcement, now: Instant): Option<Account> {
    if a.row.status != Open then Some(a)
    else
      match Insert(a.lines, batch)
      case None => None
      case Some(lines) =>
        Some(Account(
               a.row.(status := Closed, total := a.row.total + ChargeSum(batch), closedAt := Some(now)),
               lines, a.events + [evt]))
  }

  function AppendAccount(a: Account, l: Line, evt: Announcement): Option<Account> {
    if Violates(a.lines, l) then None
    else Some(Account(a.row.(total := a.row.total + l.amount), a.lines + [l], a.events + [evt]))
  }

  /** Closing drops the engine's synthetic zero-amount cancellation line. */
  function DropFreeCancellation(quote: seq<Line>): seq<Line> {
    if quote == [] then []
    else if quote[0].kind == Cancellation && quote[0].amount == 0 then DropFreeCancellation(quote[1..])
    else [quote[0]] + DropFreeCancellation(quote[1..])
  }

  function CloseSession(cfg: Config, a: Account, s: Session, now: Instant): Option<Account> {
    CloseAccount(a, DropFreeCancellation(Quote(cfg, s)), ClosedWith(Quote(cfg, s)), now)
  }

  function AddFee(a: Account, kind: LineKind, amount: int): Option<Account> {
    AppendAccount(a, Line(kind, amount), FeeAdded(kind, amount))
  }

  /* ---------- what closing a session really inserts ---------- */

  /** The one line, if any, that closing a session adds to an invoice. */
  function ClosingLine(cfg: Config, s: Session): Option<Line> {
    if s.cancelledAt.Some? then
      if Since(s.cancelledAt.value, s.confirmedAt) <= cfg.grace || cfg.cancel == 0 then None
      else Some(Line(Cancellation, cfg.cancel))
    else if s.noShow then Some(Line(NoShow, cfg.noShow))
    else if Parking(cfg, s) == [] then None
    else Some(Parking(cfg, s)[0])
  }

  lemma ClosingInsertsOneLine(cfg: Config, lines: seq<Line>, s: Session)
    ensures
      var batch := DropFreeCancellation(Quote(cfg, s));
      var c := ClosingLine(cfg, s);
      && Insert(lines, batch) ==
           (if c.None? then Some(lines) else if Violates(lines, c.value) then None else Some(lines + [c.value]))
      && ChargeSum(batch) == ChargeSum(Quote(cfg, s)) == (if c.None? then 0 else c.value.amount)
  {
    QuoteIsDecisionTable(cfg, s);
    ParkingIsBounded(cfg, s);
    var q := Quote(cfg, s);
    ShortQuote(q);
    ShortQuote(DropFreeCancellation(q));
    InsertShort(lines, DropFreeCancellation(q));
  }

  lemma InsertShort(lines: seq<Line>, batch: seq<Line>)
    decreases |batch|
    ensures |batch| == 1 ==> Insert(lines, batch) == InsertOne(lines, batch[0])
    ensures |batch| == 2 && batch[0].kind == Booking ==> Insert(lines, batch) == InsertOne(lines, batch[1])
    ensures |batch| == 2 && batch[1].kind == Booking ==> Insert(lines, batch) == InsertOne(lines, batch[0])
  {
    if |batch| == 1 {
      assert batch[1..] == [];
    } else if |batch| == 2 {
      InsertShort(lines, batch[1..]);
      InsertShort(lines + [batch[0]], batch[1..]);
    }
  }

  function InsertOne(lines: seq<Line>, l: Line): Option<seq<Line>> {
    if l.kind == Booking then Some(lines) else if Violates(lines, l) then None else Some(lines + [l])
  }

  lemma SingleQuote(l: Line)
    ensures ChargeSum([l]) == ChargeOf(l) && Sum([l]) == l.amount
    ensures DropFreeCancellation([l]) == if l == Line(Cancellation, 0) then [] else [l]
  {
    assert [l][..0] == [] && [l][1..] == [];
  }

  lemma PairQuote(a: Line, b: Line)
    ensures ChargeSum([a, b]) == ChargeOf(a) + ChargeOf(b) && Sum([a, b]) == a.amount + b.amount
    ensures a.kind != Cancellation && b.kind != Cancellation ==> DropFreeCancellation([a, b]) == [a, b]
  {
    SingleQuote(a);
    SingleQuote(b);
    var q := [a, b];
    assert q[..|q| - 1] == [a] && q[1..] == [b];
  }

  lemma ShortQuote(q: seq<Line>)
    ensures |q| == 1 ==> ChargeSum(q) == ChargeOf(q[0]) && Sum(q) == q[0].amount
    ensures |q| == 1 ==> DropFreeCancellation(q) == if q[0] == Line(Cancellation, 0) then [] else q
    ensures |q| == 2 ==> ChargeSum(q) == ChargeOf(q[0]) + ChargeOf(q[1]) && Sum(q) == q[0].amount + q[1].amount
    ensures |q| == 2 && q[0].kind != Cancellation && q[1].kind != Cancellation ==> DropFreeCancellation(q) == q
  {
    if |q| == 1 {
      assert q == [q[0]];
      SingleQuote(q[0]);
    } else if |q| == 2 {
      assert q == [q[0], q[1]];
      PairQuote(q[0], q[1]);
    }
  }

  /* ---------- the per-invoice invariant ---------- */

  predicate LineOk(cfg: Config, l: Line) {
    match l.kind
    case Booking => l.amount == cfg.booking
    case Cancellation => l.amount == cfg.cancel
    case NoShow => l.amount == cfg.noShow
    case Overnight => l.amount == cfg.overnight
    case Hourly => 0 <= l.amount <= 24 * cfg.hourly
  }

  function ParkingCount(lines: seq<Line>): nat {
    Count(lines, Hourly) + Count(lines, Overnight)
  }

  predicate ShapeOk(lines: seq<Line>) {
    && Count(lines, Booking) == 1
    && Count(lines, Cancellation) <= 1
    && Count(lines, NoShow) <= 1
    && ParkingCount(lines) <= 1
  }

  predicate EventsOk(cfg: Config, events: seq<Announcement>) {
    && |events| > 0
    && events[0] == Opened(cfg.booking)
    && (forall i :: 1 <= i < |events| ==> !events[i].Opened?)
  }

  /** The close of the invoice is announced. */
  predicate HasClosing(events: seq<Announcement>) {
    exists i :: 0 <= i < |events| && events[i].ClosedWith?
  }

  lemma HasClosingSnoc(events: seq<Announcement>, e: Announcement)
    ensures HasClosing(events + [e]) <==> HasClosing(events) || e.ClosedWith?
  {
    var longer := events + [e];
    assert longer[|events|] == e;
    if HasClosing(events) {
      var i :| 0 <= i < |events| && events[i].ClosedWith?;
      assert longer[i].ClosedWith?;
    }
  }

  ghost predicate AccountOk(cfg: Config, a: Account) {
    && (a.row.status == Open || a.row.status == Closed)
    && (a.row.closedAt.Some? <==> a.row.status == Closed)
    && a.row.total == Sum(a.lines)
    && ShapeOk(a.lines)
    && (a.row.status == Open ==> ParkingCount(a.lines) == 0)
    && (forall i :: 0 <= i < |a.lines| ==> LineOk(cfg, a.lines[i]))
    && EventsOk(cfg, a.events)
    && (HasClosing(a.events) <==> a.row.status == Closed)
    && Announced(a.events) == a.row.total
  }

  /** The fee a task may append: cancellation or no-show, at the configured tariff. */
  predicate FeeOk(cfg: Config, kind: LineKind, amount: int) {
    OneOff(kind) && LineOk(cfg, Line(kind, amount))
  }

  lemma OneLine(l: Line)
    ensures Sum([l]) == l.amount
    ensures forall k :: Count([l], k) == if l.kind == k then 1 else 0
  {
    SumSnoc([], l);
    assert [] + [l] == [l];
  }

  lemma OpenAccountOk(cfg: Config, reservation: string, driver: string, key: string)
    ensures AccountOk(cfg, OpenAccount(reservation, driver, key, cfg.booking, Opened(cfg.booking)))
  {
    var evt := Opened(cfg.booking);
    OneLine(Line(Booking, cfg.booking));
    assert Announced([evt]) == Announced([evt][..0]) + cfg.booking;
  }

  lemma CloseSessionOk(cfg: Config, a: Account, s: Session, now: Instant)
    requires AccountOk(cfg, a) && CloseSession(cfg, a, s, now).Some?
    ensures AccountOk(cfg, CloseSession(cfg, a, s, now).value)
  {
    if a.row.status == Open {
      ClosingInsertsOneLine(cfg, a.lines, s);
      AnnouncedSnoc(a.events, ClosedWith(Quote(cfg, s)));
      HasClosingSnoc(a.events, ClosedWith(Quote(cfg, s)));
      var c := ClosingLine(cfg, s);
      if c.Some? {
        ParkingIsBounded(cfg, s);
        ClosingLineOk(cfg, s);
        ClosingLineFits(cfg, a.lines, c.value);
      }
    }
  }

  lemma ClosingLineFits(cfg: Config, lines: seq<Line>, l: Line)
    requires ShapeOk(lines) && ParkingCount(lines) == 0 && (forall i :: 0 <= i < |lines| ==> LineOk(cfg, lines[i]))
    requires LineOk(cfg, l) && l.kind != Booking
    ensures Sum(lines + [l]) == Sum(lines) + l.amount
    ensures !Violates(lines, l) ==> ShapeOk(lines + [l]) && forall i :: 0 <= i <= |lines| ==> LineOk(cfg, (lines + [l])[i])
  {
    SumSnoc(lines, l);
    CountPositiveIffHasKind(lines, l.kind);
  }

  lemma ClosingLineOk(cfg: Config, s: Session)
    ensures ClosingLine(cfg, s).Some? ==>
              LineOk(cfg, ClosingLine(cfg, s).value) && ClosingLine(cfg, s).value.kind != Booking
    ensures s.cancelledAt.None? && !s.noShow && ClosingLine(cfg, s).Some? ==> !OneOff(ClosingLine(cfg, s).value.kind)
  {
    if s.cancelledAt.None? && !s.noShow && s.checkedInAt < s.checkedOutAt
       && LocalDay(s.checkedOutAt) <= LocalDay(s.checkedInAt)
    {
      SameDayAtMost24Hours(s.checkedInAt, s.checkedOutAt);
      MulMono(CeilHours(s.checkedOutAt - s.checkedInAt), 24, cfg.hourly);
    }
  }

  lemma AddFeeOk(cfg: Config, a: Account, kind: LineKind, amount: int)
    requires AccountOk(cfg, a) && FeeOk(cfg, kind, amount) && AddFee(a, kind, amount).Some?
    ensures AccountOk(cfg, AddFee(a, kind, amount).value)
  {
    SumSnoc(a.lines, Line(kind, amount));
    AnnouncedSnoc(a.events, FeeAdded(kind, amount));
    HasClosingSnoc(a.events, FeeAdded(kind, amount));
    CountPositiveIffHasKind(a.lines, kind);
  }

  /* ---------- money ---------- */

  /** The most an invoice can ever come to. */
  function InvoiceCap(cfg: Config): nat {
    cfg.booking + cfg.cancel + cfg.noShow + ParkingCap(cfg)
  }

  function KindSum(lines: seq<Line>, k: LineKind): int {
    if lines == [] then 0
    else
      var last := lines[|lines| - 1];
      KindSum(lines[..|lines| - 1], k) + if last.kind == k then last.amount else 0
  }

  lemma {:induction false} SumByKind(lines: seq<Line>)
    ensures Sum(lines) == KindSum(lines, Booking) + KindSum(lines, Cancellation) + KindSum(lines, NoShow)
                          + KindSum(lines, Hourly) + KindSum(lines, Overnight)
  {
    if lines != [] {
      SumByKind(lines[..|lines| - 1]);
    }
  }

  /** A kind that occurs once contributes one acceptable line, a kind that does not occur
      contributes nothing. */
  lemma {:induction false} KindSumOnce(cfg: Config, lines: seq<Line>, k: LineKind)
    requires forall i :: 0 <= i < |lines| ==> LineOk(cfg, lines[i])
    ensures Count(lines, k) == 0 ==> KindSum(lines, k) == 0
    ensures Count(lines, k) == 1 ==> LineOk(cfg, Line(k, KindSum(lines, k)))
  {
    if lines != [] {
      KindSumOnce(cfg, lines[..|lines| - 1], k);
      assert LineOk(cfg, lines[|lines| - 1]);
    }
  }

  lemma MoneyBound(cfg: Config, a: Account)
    requires AccountOk(cfg, a)
    ensures cfg.booking <= a.row.total <= InvoiceCap(cfg)
  {
    SumByKind(a.lines);
    KindSumOnce(cfg, a.lines, Booking);
    KindSumOnce(cfg, a.lines, Cancellation);
    KindSumOnce(cfg, a.lines, NoShow);
    KindSumOnce(cfg, a.lines, Hourly);
    KindSumOnce(cfg, a.lines, Overnight);
  }
}
