/** What handling each reservation event does, stated on the event's own fields: the
    reply for every fault, and the whole invoice afterwards. */
module Events {
  import opened Pricing
  import opened Accounts
  import opened Ledger
  import opened Billing
  import opened Interleaving
  import opened Delivery
  import opened Tariff

  /** No invoice but `id` changes, and none is added. */
  ghost predicate OnlyInvoice(db: Tables, db': Tables, id: nat) {
    && |db'.invoices| == |db.invoices|
    && forall j :: 0 <= j < |db.invoices| && j != id ==> AccountOf(db', j) == AccountOf(db, j)
  }

  /** Invoice `id` is the one of `reservation`. */
  predicate Bills(db: Tables, id: nat, reservation: string) {
    id < |db.invoices| && db.invoices[id].reservation == reservation && ValidUuid(reservation)
  }

  ghost predicate Unbilled(db: Tables, reservation: string) {
    forall i :: 0 <= i < |db.invoices| ==> db.invoices[i].reservation != reservation
  }

  function AckIf(b: bool): Reply {
    if b then Ack else Nack
  }

  lemma BilledIsFound(db: Tables, id: nat, reservation: string)
    requires Integrity(db) && Bills(db, id, reservation)
    ensures FindInvoice(db, reservation) == Found(id)
  {
    ReservationFindsInvoice(db, id);
  }

  /* ---------- events that never reach an invoice ---------- */

  /** A payload that cannot be read, an unknown routing key and a created event without a
      reservation are acknowledged and change nothing, whatever the infrastructure does. */
  lemma DroppedEvents(cfg: Config, db: Tables, driver: string, now: Instant, fault: Fault)
    ensures Handle(cfg, db, Undecodable, now, fault) == Handled(db, Ack)
    ensures Handle(cfg, db, Unrouted, now, fault) == Handled(db, Ack)
    ensures Handle(cfg, db, Created("", driver), now, fault) == Handled(db, Ack)
  {
  }

  /** Any other event whose handling fails before its commit is refused and changes
      nothing, so it comes back. */
  lemma EarlyFailureIsRefused(cfg: Config, db: Tables, m: Message, now: Instant)
    requires !m.Undecodable? && !m.Unrouted? && !(m.Created? && m.reservation == "")
    ensures Handle(cfg, db, m, now, BeforeCommit) == Handled(db, Nack)
  {
  }

  /** An event of a reservation without an invoice: fee events are acknowledged, a
      check-out is refused, and all are refused if the id is not a uuid. */
  lemma EventsWithoutInvoice(cfg: Config, db: Tables, reservation: string, a: Instant, b: Instant, c: Instant, now: Instant, fault: Fault)
    requires Unbilled(db, reservation) && !fault.BeforeCommit?
    ensures Handle(cfg, db, Cancelled(reservation, a, b), now, fault) == Handled(db, AckIf(ValidUuid(reservation)))
    ensures Handle(cfg, db, Expired(reservation), now, fault) == Handled(db, AckIf(ValidUuid(reservation)))
    ensures Handle(cfg, db, CheckedOut(reservation, a, b, c), now, fault) == Handled(db, Nack)
  {
  }

  lemma BadIdIsRefused(cfg: Config, db: Tables, reservation: string, driver: string, now: Instant, fault: Fault)
    requires reservation != "" && !ValidUuid(reservation)
    ensures Handle(cfg, db, Created(reservation, driver), now, fault) == Handled(db, Nack)
  {
  }

  /* ---------- open and close calls ---------- */

  /** Every outcome of an open: blank ids, failures and bad ids change nothing; a key in
      use returns its invoice and a reservation in use without that key is not found, both
      without writing; otherwise the invoice is added. */
  lemma OpenOutcomes(cfg: Config, db: Tables, reservation: string, driver: string, key: string, fault: Fault)
    requires LedgerOk(cfg, db)
    ensures
      var r := OpenInvoice(cfg, db, reservation, driver, key, fault);
      if TrimSpace(reservation) == "" || TrimSpace(key) == "" then r == Result(db, Fail(Validation))
      else if fault.BeforeCommit? || !ValidUuid(reservation) then r == Result(db, Fail(Infrastructure))
      else if exists j :: 0 <= j < |db.invoices| && db.invoices[j].key == key then
        && r.db == db
        && (if fault.Healthy? then
              r.outcome.Ok? && r.outcome.invoice < |db.invoices| && db.invoices[r.outcome.invoice].key == key
            else r.outcome == Fail(Infrastructure))
      else if !Unbilled(db, reservation) then r == Result(db, Fail(NotFound))
      else
        && r.outcome == (if fault.Healthy? then Ok(|db.invoices|) else Fail(Infrastructure))
        && |r.db.invoices| == |db.invoices| + 1
        && r.db.invoices[|db.invoices|] == Invoice(reservation, driver, Open, cfg.booking, key, None)
  {
    BlankIffTrimmedAway(reservation);
    BlankIffTrimmedAway(key);
  }

  /** Every outcome of a close that leaves the tables as they are. */
  lemma CloseOutcomes(cfg: Config, db: Tables, id: nat, s: Session, now: Instant, fault: Fault)
    ensures
      var r := CloseInvoice(cfg, db, id, s, now, fault);
      && (fault.BeforeCommit? ==> r == Result(db, Fail(Infrastructure)))
      && (!fault.BeforeCommit? && id >= |db.invoices| ==> r == Result(db, Fail(NotFound)))
      && (!fault.BeforeCommit? && id < |db.invoices| && db.invoices[id].status != Open ==>
            r == Result(db, if fault.Healthy? then Ok(id) else Fail(Infrastructure)))
  {
  }

  /* ---------- created ---------- */

  /** The first created event of a reservation adds one open invoice at the end of the
      table: for that reservation and driver, keyed by the reservation, with the booking
      fee as its total, its only line and its announcement. */
  lemma CreatedOpensInvoice(cfg: Config, db: Tables, reservation: string, driver: string, now: Instant, fault: Fault)
    requires LedgerOk(cfg, db) && ValidUuid(reservation) && !fault.BeforeCommit?
    requires forall i :: 0 <= i < |db.invoices| ==>
               db.invoices[i].reservation != reservation && db.invoices[i].key != reservation
    ensures
      var h := Handle(cfg, db, Created(reservation, driver), now, fault);
      var n := |db.invoices|;
      && h.reply == AckIf(fault.Healthy?)
      && |h.db.invoices| == n + 1
      && h.db.invoices[n].reservation == reservation && h.db.invoices[n].driver == driver && h.db.invoices[n].key == reservation
      && h.db.invoices[n].status == Open && h.db.invoices[n].closedAt == None && h.db.invoices[n].total == cfg.booking
      && AccountOf(h.db, n).lines == [Line(Booking, cfg.booking)] && AccountOf(h.db, n).events == [Opened(cfg.booking)]
      && (forall j :: 0 <= j < n ==> AccountOf(h.db, j) == AccountOf(db, j))
  {
    UuidIsNotBlank(reservation);
    assert ByReservation(db.invoices, reservation).None? && ByKey(db.invoices, reservation).None?;
    OpenActsOnFreshAccount(db, reservation, driver, reservation, cfg.booking, Opened(cfg.booking), fault);
  }

  /** A created event that finds its key or reservation taken writes nothing; it is
      acknowledged exactly if the key is there and nothing fails. */
  lemma CreatedAgainWritesNothing(cfg: Config, db: Tables, reservation: string, driver: string, now: Instant, fault: Fault, i: nat)
    requires i < |db.invoices| && !fault.BeforeCommit? && ValidUuid(reservation)
    requires db.invoices[i].reservation == reservation || db.invoices[i].key == reservation
    ensures Handle(cfg, db, Created(reservation, driver), now, fault) ==
              Handled(db, AckIf(fault.Healthy? && exists j :: 0 <= j < |db.invoices| && db.invoices[j].key == reservation))
  {
    UuidIsNotBlank(reservation);
    assert ByReservation(db.invoices, reservation).Some? || ByKey(db.invoices, reservation).Some?;
  }

  /* ---------- fees ---------- */

  /** A fee handler on the invoice it finds. */
  lemma FeeOnInvoice(cfg: Config, db: Tables, id: nat, kind: LineKind, amount: int, fault: Fault)
    requires LedgerOk(cfg, db) && id < |db.invoices| && ValidUuid(db.invoices[id].reservation) && !fault.BeforeCommit?
    ensures
      var h := ApplyFee(db, db.invoices[id].reservation, kind, amount, false, fault);
      FeeResult(db, h, id, kind, amount, fault)
  {
    BilledIsFound(db, id, db.invoices[id].reservation);
    AppendActsOnOneAccount(db, id, Line(kind, amount), FeeAdded(kind, amount), fault);
  }

  /** On an open invoice without such a line the fee becomes one line, one addition to the
      total and one outbox row; with such a line the event is refused; on a closed invoice
      it is acknowledged. */
  ghost predicate FeeResult(db: Tables, h: Handled, id: nat, kind: LineKind, amount: int, fault: Fault)
    requires id < |db.invoices|
  {
    var a := AccountOf(db, id);
    if a.row.status != Open then h == Handled(db, Ack)
    else if OneOff(kind) && exists i :: 0 <= i < |a.lines| && a.lines[i].kind == kind then h == Handled(db, Nack)
    else
      && h.reply == AckIf(fault.Healthy?)
      && OnlyInvoice(db, h.db, id)
      && AccountOf(h.db, id) == Account(a.row.(total := a.row.total + amount), a.lines + [Line(kind, amount)],
                                        a.events + [FeeAdded(kind, amount)])
  }

  /** A cancellation is charged exactly if it comes after the grace window and the tariff
      is not zero; a payload without a time is judged at the time of handling. */
  lemma CancelledCharges(cfg: Config, db: Tables, id: nat, reservation: string, confirmedAt: Instant,
                         cancelledAt: Instant, now: Instant, fault: Fault)
    requires LedgerOk(cfg, db) && Bills(db, id, reservation) && !fault.BeforeCommit?
    ensures
      var h := Handle(cfg, db, Cancelled(reservation, confirmedAt, cancelledAt), now, fault);
      if Free(cfg, confirmedAt, if Unset(cancelledAt) then now else cancelledAt) || cfg.cancel == 0
      then h == Handled(db, Ack)
      else FeeResult(db, h, id, Cancellation, cfg.cancel, fault)
  {
    FreeIffWithinGrace(cfg, confirmedAt, if Unset(cancelledAt) then now else cancelledAt);
    BilledIsFound(db, id, reservation);
    FeeOnInvoice(cfg, db, id, Cancellation, cfg.cancel, fault);
  }

  lemma ExpiredCharges(cfg: Config, db: Tables, id: nat, reservation: string, now: Instant, fault: Fault)
    requires LedgerOk(cfg, db) && Bills(db, id, reservation) && !fault.BeforeCommit?
    ensures FeeResult(db, Handle(cfg, db, Expired(reservation), now, fault), id, NoShow, cfg.noShow, fault)
  {
    FeeOnInvoice(cfg, db, id, NoShow, cfg.noShow, fault);
  }

  /* ---------- check-out ---------- */

  /** A check-out closes the open invoice it finds: it adds exactly the parking charge of
      the event's own two times to the lines and to the total, sets closed_at to the
      handling time and announces the quote. On an invoice that is not open it changes
      nothing. */
  lemma CheckoutCharges(cfg: Config, db: Tables, id: nat, reservation: string, confirmedAt: Instant,
                        checkedInAt: Instant, checkedOutAt: Instant, now: Instant, fault: Fault)
    returns (parking: seq<Line>)
    requires LedgerOk(cfg, db) && Bills(db, id, reservation) && !fault.BeforeCommit?
    ensures Charges(cfg, checkedInAt, checkedOutAt, parking)
    ensures
      var h := Handle(cfg, db, CheckedOut(reservation, confirmedAt, checkedInAt, checkedOutAt), now, fault);
      var a := AccountOf(db, id);
      && h.reply == AckIf(fault.Healthy?)
      && OnlyInvoice(db, h.db, id)
      && AccountOf(h.db, id) ==
           if a.row.status != Open then a
           else Account(a.row.(status := Closed, closedAt := Some(now), total := a.row.total + Sum(parking)),
                        a.lines + parking, a.events + [ClosedWith([Line(Booking, cfg.booking)] + parking)])
  {
    var s := PlainSession(confirmedAt, checkedInAt, checkedOutAt);
    parking := QuoteInPlainNumbers(cfg, s);
    BilledIsFound(db, id, reservation);
    ParkingIsCharged(cfg, s);
    ChargeIsUnique(cfg, checkedInAt, checkedOutAt, parking, Parking(cfg, s));
    if db.invoices[id].status == Open {
      PlainCloses(cfg, AccountOf(db, id), s, now);
    }
    CloseActsOnOneAccount(db, id, DropFreeCancellation(Quote(cfg, s)), ClosedWith(Quote(cfg, s)), now, fault);
  }

  lemma PlainCloses(cfg: Config, a: Account, s: Session, now: Instant)
    requires Plain(s) && a.row.status == Open
    ensures
      var parking := Parking(cfg, s);
      CloseSession(cfg, a, s, now) ==
        Some(Account(a.row.(status := Closed, closedAt := Some(now), total := a.row.total + Sum(parking)),
                     a.lines + parking, a.events + [ClosedWith([Line(Booking, cfg.booking)] + parking)]))
  {
    var parking := Parking(cfg, s);
    QuoteIsDecisionTable(cfg, s);
    ParkingIsBounded(cfg, s);
    ClosingInsertsOneLine(cfg, a.lines, s);
    ClosingLineOk(cfg, s);
    ShortQuote(parking);
    assert CloseSession(cfg, a, s, now).Some?;
    if parking == [] {
      assert a.lines + parking == a.lines;
    } else {
      assert parking == [parking[0]];
    }
  }

  /* ---------- the largest bill is reached ---------- */

  /** A stay that costs the most: the full local day of 2 January 1970, one nanosecond
      short of the next midnight or up to it. */
  function DearestCheckOut(cfg: Config): Instant {
    if cfg.overnight > 24 * cfg.hourly then 147_600_000_000_000 else 147_599_999_999_999
  }

  lemma DearestStay(cfg: Config, parking: seq<Line>)
    requires Charges(cfg, 61_200_000_000_000, DearestCheckOut(cfg), parking)
    ensures Sum(parking) == ParkingCap(cfg)
  {
    FullDayIs24Hours(cfg, 61_200_000_000_000);
    var dearest := if cfg.overnight > 24 * cfg.hourly then [Line(Overnight, cfg.overnight)] else [Line(Hourly, 24 * cfg.hourly)];
    ChargeIsUnique(cfg, 61_200_000_000_000, DearestCheckOut(cfg), parking, dearest);
    OneLine(dearest[0]);
  }

  /** Invoice 0 is the open invoice of a reservation, with a given total and no lines but
      of the given kinds. */
  ghost predicate Stage(cfg: Config, db: Tables, reservation: string, total: int, kinds: set<LineKind>) {
    && LedgerOk(cfg, db) && Bills(db, 0, reservation)
    && db.invoices[0].status == Open && db.invoices[0].total == total
    && forall i :: 0 <= i < |AccountOf(db, 0).lines| ==> AccountOf(db, 0).lines[i].kind in kinds
  }

  lemma BookedStage(cfg: Config, reservation: string, driver: string)
    requires ValidUuid(reservation)
    ensures Stage(cfg, Handle(cfg, EMPTY, Created(reservation, driver), 0, Healthy).db, reservation, cfg.booking, {Booking})
  {
    CreatedOpensInvoice(cfg, EMPTY, reservation, driver, 0, Healthy);
    HandleKeeps(cfg, EMPTY, Created(reservation, driver), 0, Healthy);
  }

  lemma FeeStage(cfg: Config, db: Tables, h: Handled, reservation: string, total: int, kinds: set<LineKind>, kind: LineKind, amount: int)
    requires Stage(cfg, db, reservation, total, kinds) && kind !in kinds
    requires FeeResult(db, h, 0, kind, amount, Healthy) && LedgerOk(cfg, h.db)
    ensures Stage(cfg, h.db, reservation, total + amount, kinds + {kind})
  {
    var lines := AccountOf(h.db, 0).lines;
    assert lines == AccountOf(db, 0).lines + [Line(kind, amount)];
  }

  lemma CancelledStage(cfg: Config, db: Tables, reservation: string, total: int)
    requires Stage(cfg, db, reservation, total, {Booking}) && cfg.grace < 9_223_372_036_854_775_807
    ensures Stage(cfg, Handle(cfg, db, Cancelled(reservation, 0, cfg.grace + 1), 0, Healthy).db, reservation, total + cfg.cancel,
                  {Booking, Cancellation})
  {
    var h := Handle(cfg, db, Cancelled(reservation, 0, cfg.grace + 1), 0, Healthy);
    HandleKeeps(cfg, db, Cancelled(reservation, 0, cfg.grace + 1), 0, Healthy);
    LateCancelIsCharged(cfg, db, reservation);
    assert {Booking} + {Cancellation} == {Booking, Cancellation};
    if cfg.cancel == 0 {
      WiderStage(cfg, db, reservation, total, {Booking}, {Booking, Cancellation});
    } else {
      FeeStage(cfg, db, h, reservation, total, {Booking}, Cancellation, cfg.cancel);
    }
  }

  lemma LateCancelIsCharged(cfg: Config, db: Tables, reservation: string)
    requires LedgerOk(cfg, db) && Bills(db, 0, reservation) && cfg.grace < 9_223_372_036_854_775_807
    ensures
      var h := Handle(cfg, db, Cancelled(reservation, 0, cfg.grace + 1), 0, Healthy);
      if cfg.cancel == 0 then h == Handled(db, Ack) else FeeResult(db, h, 0, Cancellation, cfg.cancel, Healthy)
  {
    CancelledCharges(cfg, db, 0, reservation, 0, cfg.grace + 1, 0, Healthy);
  }

  lemma WiderStage(cfg: Config, db: Tables, reservation: string, total: int, kinds: set<LineKind>, more: set<LineKind>)
    requires Stage(cfg, db, reservation, total, kinds) && kinds <= more
    ensures Stage(cfg, db, reservation, total, more)
  {
  }

  lemma MissedStage(cfg: Config, db: Tables, reservation: string, total: int)
    requires Stage(cfg, db, reservation, total, {Booking, Cancellation})
    ensures Stage(cfg, Handle(cfg, db, Expired(reservation), 0, Healthy).db, reservation, total + cfg.noShow,
                  {Booking, Cancellation} + {NoShow})
  {
    ExpiredCharges(cfg, db, 0, reservation, 0, Healthy);
    HandleKeeps(cfg, db, Expired(reservation), 0, Healthy);
    FeeStage(cfg, db, Handle(cfg, db, Expired(reservation), 0, Healthy), reservation, total, {Booking, Cancellation},
             NoShow, cfg.noShow);
  }

  lemma DearestClose(cfg: Config, db: Tables, reservation: string, total: int, kinds: set<LineKind>)
    requires Stage(cfg, db, reservation, total, kinds)
    ensures
      var done := Handle(cfg, db, CheckedOut(reservation, 0, 61_200_000_000_000, DearestCheckOut(cfg)), 0, Healthy).db;
      |done.invoices| > 0 && done.invoices[0].total == total + ParkingCap(cfg)
  {
    var parking := CheckoutCharges(cfg, db, 0, reservation, 0, 61_200_000_000_000, DearestCheckOut(cfg), 0, Healthy);
    DearestStay(cfg, parking);
    assert AccountOf(Handle(cfg, db, CheckedOut(reservation, 0, 61_200_000_000_000, DearestCheckOut(cfg)), 0, Healthy).db, 0).row.total
        == total + Sum(parking);
  }

  /** The bound on invoices is exact: unless the grace window is endless, four events take
      an invoice to it. */
  lemma LargestBillIsReached(cfg: Config, reservation: string, driver: string)
    requires ValidUuid(reservation) && cfg.grace < 9_223_372_036_854_775_807
    ensures
      var booked := Handle(cfg, EMPTY, Created(reservation, driver), 0, Healthy).db;
      var late := Handle(cfg, booked, Cancelled(reservation, 0, cfg.grace + 1), 0, Healthy).db;
      var missed := Handle(cfg, late, Expired(reservation), 0, Healthy).db;
      var done := Handle(cfg, missed, CheckedOut(reservation, 0, 61_200_000_000_000, DearestCheckOut(cfg)), 0, Healthy).db;
      |done.invoices| > 0 && done.invoices[0].total == InvoiceCap(cfg)
  {
    var booked := Handle(cfg, EMPTY, Created(reservation, driver), 0, Healthy).db;
    var late := Handle(cfg, booked, Cancelled(reservation, 0, cfg.grace + 1), 0, Healthy).db;
    BookedStage(cfg, reservation, driver);
    CancelledStage(cfg, booked, reservation, cfg.booking);
    MissedStage(cfg, late, reservation, cfg.booking + cfg.cancel);
    DearestClose(cfg, Handle(cfg, late, Expired(reservation), 0, Healthy).db, reservation,
                 cfg.booking + cfg.cancel + cfg.noShow, {Booking, Cancellation} + {NoShow});
  }
}
