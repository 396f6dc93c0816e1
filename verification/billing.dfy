/** The billing use cases and the reservation consumer, as functions of the tables. */
module Billing {
  import opened Pricing
  import opened Accounts
  import opened Ledger

  predicate IsSpace(c: char) {
    var n := c as int;
    9 <= n <= 13 || n == 32 || n == 0x85 || n == 0xA0 || n == 0x1680 || 0x2000 <= n <= 0x200A
    || n == 0x2028 || n == 0x2029 || n == 0x202F || n == 0x205F || n == 0x3000
  }

  predicate Blank(s: string) {
    forall i :: 0 <= i < |s| ==> IsSpace(s[i])
  }

  function TrimLeft(s: string): string {
    if s != "" && IsSpace(s[0]) then TrimLeft(s[1..]) else s
  }

  function TrimRight(s: string): string {
    if s != "" && IsSpace(s[|s| - 1]) then TrimRight(s[..|s| - 1]) else s
  }

  /** The text without the white space around it. */
  function TrimSpace(s: string): string {
    TrimRight(TrimLeft(s))
  }

  lemma {:induction false} TrimLeftStops(s: string)
    ensures TrimLeft(s) == "" <==> Blank(s)
    ensures TrimLeft(s) != "" ==> !IsSpace(TrimLeft(s)[0])
  {
    if s != "" && IsSpace(s[0]) {
      TrimLeftStops(s[1..]);
      assert s == [s[0]] + s[1..];
    }
  }

  lemma {:induction false} TrimRightKeepsHead(s: string)
    requires s != "" && !IsSpace(s[0])
    ensures TrimRight(s) != ""
  {
    if IsSpace(s[|s| - 1]) {
      TrimRightKeepsHead(s[..|s| - 1]);
    }
  }

  /** An id is refused exactly when nothing is left of it after trimming. */
  lemma BlankIffTrimmedAway(s: string)
    ensures Blank(s) <==> TrimSpace(s) == ""
  {
    TrimLeftStops(s);
    if !Blank(s) {
      TrimRightKeepsHead(TrimLeft(s));
    }
  }

  /** The 25 characters with the White_Space property of Unicode. */
  const WHITE_SPACE :=
    "\t\n\U{0B}\U{0C}\r \U{85}\U{A0}\U{1680}\U{2000}\U{2001}\U{2002}\U{2003}\U{2004}\U{2005}\U{2006}"
    + "\U{2007}\U{2008}\U{2009}\U{200A}\U{2028}\U{2029}\U{202F}\U{205F}\U{3000}"

  lemma SpacesAreUnicode(c: char)
    ensures IsSpace(c) <==> c in WHITE_SPACE
  {
    if c in WHITE_SPACE {
      var i :| 0 <= i < 25 && WHITE_SPACE[i] == c;
    }
    if IsSpace(c) {
      SpaceHasPlace(c);
    }
  }

  lemma SpaceHasPlace(c: char)
    requires IsSpace(c)
    ensures c in WHITE_SPACE
  {
    var n := c as int;
    var i := if n <= 13 then n - 9 else if n == 32 then 5 else if n == 0x85 then 6 else if n == 0xA0 then 7
             else if n == 0x1680 then 8 else if n <= 0x200A then n - 0x2000 + 9 else if n == 0x2028 then 20
             else if n == 0x2029 then 21 else if n == 0x202F then 22 else if n == 0x205F then 23 else 24;
    assert WHITE_SPACE[i] == c;
  }

  lemma UuidIsNotBlank(s: string)
    requires ValidUuid(s)
    ensures !Blank(s)
  {
    assert !IsSpace(s[0]);
  }

  function OpenInvoice(cfg: Config, db: Tables, reservation: string, driver: string, key: string,
                       fault: Fault): Result
  {
    if Blank(reservation) || Blank(key) then Result(db, Fail(Validation))
    else OpenTx(db, reservation, driver, key, cfg.booking, Opened(cfg.booking), fault)
  }

  function CloseInvoice(cfg: Config, db: Tables, id: nat, s: Session, now: Instant, fault: Fault): Result {
    CloseTx(db, id, DropFreeCancellation(Quote(cfg, s)), ClosedWith(Quote(cfg, s)), now, fault)
  }

  /** Answer of a working database to a query by reservation. */
  datatype Lookup = Found(invoice: nat) | Missing | Rejected

  function FindInvoice(db: Tables, reservation: string): Lookup {
    if !ValidUuid(reservation) then Rejected
    else
      match ByReservation(db.invoices, reservation)
      case None => Missing
      case Some(id) => Found(id)
  }

  /** What cancelling at `cancelledAt` costs. */
  function CancelFee(cfg: Config, confirmedAt: Instant, cancelledAt: Instant): nat {
    if Since(cancelledAt, confirmedAt) <= cfg.grace then 0 else cfg.cancel
  }

  function PlainSession(confirmedAt: Instant, checkedInAt: Instant, checkedOutAt: Instant): Session {
    Session(confirmedAt, checkedInAt, checkedOutAt, None, false)
  }

  function CancelSession(confirmedAt: Instant, cancelledAt: Instant): Session {
    Session(confirmedAt, ZERO_TIME, ZERO_TIME, Some(cancelledAt), false)
  }

  lemma CancelQuote(cfg: Config, confirmedAt: Instant, cancelledAt: Instant)
    ensures Quote(cfg, CancelSession(confirmedAt, cancelledAt))
         == [Line(Cancellation, CancelFee(cfg, confirmedAt, cancelledAt))]
  {
    QuoteIsDecisionTable(cfg, CancelSession(confirmedAt, cancelledAt));
  }

  /* ---------- the consumer ---------- */

  datatype Message =
    | Created(reservation: string, driver: string)
    | Cancelled(reservation: string, confirmedAt: Instant, cancelledAt: Instant)
    | Expired(reservation: string)
    | CheckedOut(reservation: string, confirmedAt: Instant, checkedInAt: Instant, checkedOutAt: Instant)
    | Undecodable
    | Unrouted

  datatype Reply = Ack | Nack

  datatype Handled = Handled(db: Tables, reply: Reply)

  function ReplyTo(r: Result): Handled {
    Handled(r.db, if r.outcome.Ok? then Ack else Nack)
  }

  /** A fee handler whose status read and append run back to back. `skip` says that the
      engine found nothing to charge. */
  function ApplyFee(db: Tables, reservation: string, kind: LineKind, amount: int, skip: bool, fault: Fault): Handled {
    if fault.BeforeCommit? then Handled(db, Nack)
    else
      match FindInvoice(db, reservation)
      case Rejected => Handled(db, Nack)
      case Missing => Handled(db, Ack)
      case Found(id) =>
        if db.invoices[id].status != Open || skip then Handled(db, Ack)
        else ReplyTo(AppendTx(db, id, Line(kind, amount), FeeAdded(kind, amount), fault))
  }

  function ApplyCancelFee(cfg: Config, db: Tables, reservation: string, confirmedAt: Instant,
                          cancelledAt: Instant, fault: Fault): Handled
  {
    var fee := CancelFee(cfg, confirmedAt, cancelledAt);
    ApplyFee(db, reservation, Cancellation, fee, fee == 0, fault)
  }

  function ApplyNoShowFee(cfg: Config, db: Tables, reservation: string, fault: Fault): Handled {
    ApplyFee(db, reservation, NoShow, cfg.noShow, false, fault)
  }

  /** A payload without a cancellation time is priced at the time of handling. */
  function CancelTime(cancelledAt: Instant, now: Instant): Instant {
    if cancelledAt == ZERO_TIME then now else cancelledAt
  }

  function Handle(cfg: Config, db: Tables, m: Message, now: Instant, fault: Fault): Handled {
    match m
    case Created(reservation, driver) =>
      if reservation == "" then Handled(db, Ack)
      else ReplyTo(OpenInvoice(cfg, db, reservation, driver, reservation, fault))
    case Cancelled(reservation, confirmedAt, cancelledAt) =>
      ApplyCancelFee(cfg, db, reservation, confirmedAt, CancelTime(cancelledAt, now), fault)
    case Expired(reservation) =>
      ApplyNoShowFee(cfg, db, reservation, fault)
    case CheckedOut(reservation, confirmedAt, checkedInAt, checkedOutAt) =>
      if fault.BeforeCommit? then Handled(db, Nack)
      else
        (match FindInvoice(db, reservation)
         case Rejected => Handled(db, Nack)
         case Missing => Handled(db, Nack)
         case Found(id) =>
           ReplyTo(CloseInvoice(cfg, db, id, PlainSession(confirmedAt, checkedInAt, checkedOutAt), now, fault)))
    case Undecodable => Handled(db, Ack)
    case Unrouted => Handled(db, Ack)
  }
}
