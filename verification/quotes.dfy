/** What the ledger charges against what the pricing engine quotes. */
module Quotes {
  import opened Pricing
  import opened Accounts
  import opened Ledger
  import opened Billing
  import opened Interleaving

  /** The quote is the booking fee, unless cancelled, plus the line closing adds. */
  lemma QuoteTotal(cfg: Config, s: Session)
    ensures Sum(Quote(cfg, s)) == (if s.cancelledAt.Some? then 0 else cfg.booking) + ChargeSum(Quote(cfg, s))
  {
    QuoteIsDecisionTable(cfg, s);
    ParkingIsBounded(cfg, s);
    ShortQuote(Quote(cfg, s));
  }

  /** A successful close leaves the invoice at the engine's total plus whatever fees it
      already carried; for a cancelled session the booking fee comes on top. */
  lemma CloseCharges(cfg: Config, db: Tables, id: nat, s: Session, now: Instant)
    requires LedgerOk(cfg, db) && id < |db.invoices| && db.invoices[id].status == Open
    ensures
      var r := CloseInvoice(cfg, db, id, s, now, Healthy);
      var c := ClosingLine(cfg, s);
      if c.Some? && Violates(AccountOf(db, id).lines, c.value) then r == Result(db, Fail(Conflict))
      else
        && r.outcome == Ok(id) && IsClosed(r.db, id)
        && r.db.invoices[id].total == Sum(Quote(cfg, s)) + (db.invoices[id].total - cfg.booking)
                                      + (if s.cancelledAt.Some? then cfg.booking else 0)
        && AccountOf(r.db, id).lines == AccountOf(db, id).lines + if c.Some? then [c.value] else []
  {
    CloseActsOnOneAccount(db, id, DropFreeCancellation(Quote(cfg, s)), ClosedWith(Quote(cfg, s)), now, Healthy);
    ClosingInsertsOneLine(cfg, AccountOf(db, id).lines, s);
    QuoteTotal(cfg, s);
  }

  /** Open, then close: the invoice comes to exactly the engine's total, if and only if
      the session was not cancelled or booking is free. */
  lemma OpenThenCloseAgreesIff(cfg: Config, db: Tables, reservation: string, driver: string, key: string,
                               s: Session, now: Instant)
    requires LedgerOk(cfg, db)
    requires OpenInvoice(cfg, db, reservation, driver, key, Healthy).db != db
    ensures
      var booked := OpenInvoice(cfg, db, reservation, driver, key, Healthy);
      && booked.outcome == Ok(|db.invoices|)
      && var closed := CloseInvoice(cfg, booked.db, |db.invoices|, s, now, Healthy);
         && closed.outcome == Ok(|db.invoices|)
         && (closed.db.invoices[|db.invoices|].total == Sum(Quote(cfg, s)) <==> s.cancelledAt.None? || cfg.booking == 0)
  {
    JustOpened(cfg, db, reservation, driver, key);
    ClosingLineOk(cfg, s);
    CloseCharges(cfg, OpenInvoice(cfg, db, reservation, driver, key, Healthy).db, |db.invoices|, s, now);
  }

  /** An open that writes leaves a sound ledger with the new invoice at its end. */
  lemma JustOpened(cfg: Config, db: Tables, reservation: string, driver: string, key: string)
    requires LedgerOk(cfg, db)
    requires OpenInvoice(cfg, db, reservation, driver, key, Healthy).db != db
    ensures
      var r := OpenInvoice(cfg, db, reservation, driver, key, Healthy);
      && r.outcome == Ok(|db.invoices|) && |r.db.invoices| == |db.invoices| + 1
      && LedgerOk(cfg, r.db) && ValidUuid(reservation)
      && AccountOf(r.db, |db.invoices|) == OpenAccount(reservation, driver, key, cfg.booking, Opened(cfg.booking))
  {
    OpenSound(cfg, db, reservation, driver, key, Healthy);
    OpenActsOnFreshAccount(db, reservation, driver, key, cfg.booking, Opened(cfg.booking), Healthy);
  }

  lemma NoShowCharges(cfg: Config, db: Tables, id: nat)
    requires LedgerOk(cfg, db) && id < |db.invoices| && db.invoices[id].status == Open
    requires ValidUuid(db.invoices[id].reservation) && !HasKind(AccountOf(db, id).lines, NoShow)
    ensures
      var h := ApplyNoShowFee(cfg, db, db.invoices[id].reservation, Healthy);
      h.reply == Ack && id < |h.db.invoices| && Some(AccountOf(h.db, id)) == AddFee(AccountOf(db, id), NoShow, cfg.noShow)
  {
    ReservationFindsInvoice(db, id);
    AppendActsOnOneAccount(db, id, Line(NoShow, cfg.noShow), FeeAdded(NoShow, cfg.noShow), Healthy);
  }

  /** Open, then no-show: the fee handler bypasses the engine and still leaves the
      invoice, open, at the engine's no-show total with the engine's lines. */
  lemma OpenThenNoShowAgrees(cfg: Config, db: Tables, reservation: string, driver: string, key: string, s: Session)
    requires LedgerOk(cfg, db) && s.noShow && s.cancelledAt.None?
    requires OpenInvoice(cfg, db, reservation, driver, key, Healthy).db != db
    ensures
      var h := ApplyNoShowFee(cfg, OpenInvoice(cfg, db, reservation, driver, key, Healthy).db, reservation, Healthy);
      && h.reply == Ack
      && |h.db.invoices| > |db.invoices|
      && var a := AccountOf(h.db, |db.invoices|);
         a.row.status == Open && a.row.total == Sum(Quote(cfg, s)) && multiset(a.lines) == multiset(Quote(cfg, s))
  {
    var n := |db.invoices|;
    var booked := OpenInvoice(cfg, db, reservation, driver, key, Healthy);
    JustOpened(cfg, db, reservation, driver, key);
    NoShowCharges(cfg, booked.db, n);
    QuoteIsDecisionTable(cfg, s);
    ShortQuote(Quote(cfg, s));
    assert AccountOf(ApplyNoShowFee(cfg, booked.db, reservation, Healthy).db, n).lines
        == [Line(Booking, cfg.booking), Line(NoShow, cfg.noShow)];
  }
}
