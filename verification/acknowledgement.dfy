/** What an acknowledgement promises, and exactly which redeliveries are harmless. */
module Acknowledgement {
  import opened Pricing
  import opened Accounts
  import opened Ledger
  import opened Billing
  import opened Interleaving
  import opened Delivery
  import opened Tariff
  import opened Events

  /* ---------- exactness of Settled ---------- */

  ghost predicate NoOpAfter(cfg: Config, db: Tables, m: Message, steps: seq<Step>, now: Instant) {
    Handle(cfg, Run(cfg, db, steps), m, now, Healthy).db == Run(cfg, db, steps)
  }

  function LongText(n: nat): (s: string)
    ensures |s| == n && forall i :: 0 <= i < n ==> s[i] == 'k'
  {
    if n == 0 then "" else LongText(n - 1) + "k"
  }

  lemma {:induction false} UnusedKey(invoices: seq<Invoice>) returns (n: nat)
    ensures forall i :: 0 <= i < |invoices| ==> |invoices[i].key| < n
  {
    if invoices == [] {
      n := 1;
    } else {
      n := UnusedKey(invoices[..|invoices| - 1]);
      n := n + |invoices[|invoices| - 1].key| + 1;
    }
  }

  /** A reservation without an invoice can be given one under an unused key. */
  lemma SomeoneOpens(cfg: Config, db: Tables, reservation: string) returns (step: Step)
    requires LedgerOk(cfg, db) && FindInvoice(db, reservation).Missing?
    ensures
      var db' := Do(cfg, db, step);
      && LedgerOk(cfg, db')
      && FindInvoice(db', reservation) == Found(|db.invoices|)
      && |db'.invoices| == |db.invoices| + 1
      && AccountOf(db', |db.invoices|).lines == [Line(Booking, cfg.booking)]
      && db'.invoices[|db.invoices|].status == Open
  {
    var n := UnusedKey(db.invoices);
    var key := LongText(n + 1);
    step := GrpcOpen(reservation, "", key, Healthy);
    UuidIsNotBlank(reservation);
    assert !IsSpace(key[0]);
    assert ByKey(db.invoices, key).None?;
    OpenSound(cfg, db, reservation, "", key, Healthy);
    OpenActsOnFreshAccount(db, reservation, "", key, cfg.booking, Opened(cfg.booking), Healthy);
    ReservationFindsInvoice(Do(cfg, db, step), |db.invoices|);
  }

  /** An hour at which a cancellation that is not always free costs something. */
  function ChargingTime(cfg: Config, m: Message): Instant
    requires m.Cancelled?
  {
    m.confirmedAt + if cfg.grace < 0 then 0 else cfg.grace + 1
  }

  lemma UnsettledOpenInvoiceChanges(cfg: Config, db: Tables, m: Message, id: nat) returns (now: Instant)
    requires LedgerOk(cfg, db) && !m.Undecodable? && !m.Unrouted?
    requires FindInvoice(db, m.reservation) == Found(id) && !Settled(cfg, db, m)
    ensures Handle(cfg, db, m, now, Healthy).db != db
  {
    now := if m.Cancelled? then ChargingTime(cfg, m) else 0;
    if m.CheckedOut? {
      CheckoutCloses(cfg, db, id, m, now, Healthy);
    } else {
      var kind := if m.Cancelled? then Cancellation else NoShow;
      var fee := if m.Cancelled? then CancelFee(cfg, m.confirmedAt, CancelTime(m.cancelledAt, now)) else cfg.noShow;
      assert Handle(cfg, db, m, now, Healthy).db == AppendTx(db, id, Line(kind, fee), FeeAdded(kind, fee), Healthy).db;
      assert |Handle(cfg, db, m, now, Healthy).db.lines| == |db.lines| + 1;
    }
  }

  /** A message is settled exactly when handling it changes nothing now and after every
      possible continuation. */
  lemma SettledIff(cfg: Config, db: Tables, m: Message)
    requires LedgerOk(cfg, db)
    ensures Settled(cfg, db, m) <==> forall steps, now :: NoOpAfter(cfg, db, m, steps, now)
  {
    if Settled(cfg, db, m) {
      forall steps, now
        ensures NoOpAfter(cfg, db, m, steps, now)
      {
        RunOk(cfg, db, steps);
        SettledLasts(cfg, db, Run(cfg, db, steps), m);
        SettledIsNoOp(cfg, Run(cfg, db, steps), m, now, Healthy);
      }
    } else {
      var steps, now := UnsettledBites(cfg, db, m);
      assert !NoOpAfter(cfg, db, m, steps, now);
    }
  }

  lemma UnsettledBites(cfg: Config, db: Tables, m: Message) returns (steps: seq<Step>, now: Instant)
    requires LedgerOk(cfg, db) && !Settled(cfg, db, m)
    ensures !NoOpAfter(cfg, db, m, steps, now)
  {
    if m.Created? {
      steps, now := [], 0;
      UuidIsNotBlank(m.reservation);
      OpenActsOnFreshAccount(db, m.reservation, m.driver, m.reservation, cfg.booking, Opened(cfg.booking), Healthy);
    } else if FindInvoice(db, m.reservation).Missing? {
      var step := SomeoneOpens(cfg, db, m.reservation);
      steps := [step];
      assert steps[..0] == [];
      assert Run(cfg, db, steps) == Do(cfg, db, step);
      now := UnsettledOpenInvoiceChanges(cfg, Do(cfg, db, step), m, |db.invoices|);
    } else {
      steps := [];
      now := UnsettledOpenInvoiceChanges(cfg, db, m, FindInvoice(db, m.reservation).invoice);
    }
  }

  /** Why the theorem asks that the invoice existed: a cancellation handled before the
      invoice exists is acknowledged, and its redelivery still charges afterwards. */
  lemma EarlyCancelIsNotSettled(cfg: Config, reservation: string, driver: string, confirmedAt: Instant, cancelledAt: Instant,
                                now: Instant)
    requires ValidUuid(reservation) && cancelledAt != ZERO_TIME && CancelFee(cfg, confirmedAt, cancelledAt) != 0
    ensures
      var cancel := Cancelled(reservation, confirmedAt, cancelledAt);
      var booked := Handle(cfg, EMPTY, Created(reservation, driver), now, Healthy).db;
      && Handle(cfg, EMPTY, cancel, now, Healthy) == Handled(EMPTY, Ack)
      && Handle(cfg, booked, cancel, now, Healthy).db != booked
  {
    FirstOpen(cfg, reservation, driver);
    var m := Cancelled(reservation, confirmedAt, cancelledAt);
    CancelChargesBooked(cfg, reservation, driver, m, now);
  }

  lemma CancelChargesBooked(cfg: Config, reservation: string, driver: string, m: Message, now: Instant)
    requires ValidUuid(reservation) && m.Cancelled? && m.reservation == reservation
    requires CancelFee(cfg, m.confirmedAt, CancelTime(m.cancelledAt, now)) != 0
    ensures Handle(cfg, Booked(cfg, reservation, driver), m, now, Healthy).db != Booked(cfg, reservation, driver)
  {
    var booked := Booked(cfg, reservation, driver);
    FirstOpen(cfg, reservation, driver);
    assert !HasKind(AccountOf(booked, 0).lines, Cancellation);
    assert |Handle(cfg, booked, m, now, Healthy).db.lines| == |booked.lines| + 1;
  }

  /** Why it asks for a stamped payload: without a cancellation time the same message is
      free when handled within the grace window and charged when redelivered later. */
  lemma UnstampedCancelIsNotIdempotent(cfg: Config, reservation: string, driver: string, confirmedAt: Instant)
    requires ValidUuid(reservation) && cfg.cancel > 0 && 0 <= cfg.grace < MAX_DURATION
    ensures
      var cancel := Cancelled(reservation, confirmedAt, ZERO_TIME);
      var booked := Handle(cfg, EMPTY, Created(reservation, driver), confirmedAt, Healthy).db;
      && Handle(cfg, booked, cancel, confirmedAt, Healthy) == Handled(booked, Ack)
      && Handle(cfg, booked, cancel, confirmedAt + cfg.grace + 1, Healthy).db != booked
  {
    FirstOpen(cfg, reservation, driver);
    var m := Cancelled(reservation, confirmedAt, ZERO_TIME);
    CancelChargesBooked(cfg, reservation, driver, m, confirmedAt + cfg.grace + 1);
  }

  /* ---------- replies to redeliveries ---------- */

  /** A fee message that did append its line is refused by the unique index on every
      redelivery for as long as the invoice stays open, and acknowledged again only once
      it is closed. */
  lemma RedeliveredFeeIsRefusedUntilClosed(cfg: Config, db: Tables, m: Message, first: Instant, steps: seq<Step>, later: Instant)
    requires LedgerOk(cfg, db) && Stamped(m) && (m.Cancelled? || m.Expired?)
    requires Handle(cfg, db, m, first, Healthy).db != db
    ensures
      var afterwards := Run(cfg, Handle(cfg, db, m, first, Healthy).db, steps);
      && FindInvoice(db, m.reservation).Found?
      && var id := FindInvoice(db, m.reservation).invoice;
         && id < |afterwards.invoices|
         && Handle(cfg, afterwards, m, later, Healthy) == Handled(afterwards, if IsClosed(afterwards, id) then Ack else Nack)
  {
    var db' := Handle(cfg, db, m, first, Healthy).db;
    var id := FindInvoice(db, m.reservation).invoice;
    var kind := if m.Cancelled? then Cancellation else NoShow;
    FeeLands(cfg, db, m, first);
    RunOk(cfg, db', steps);
    KindLasts(cfg, db', Run(cfg, db', steps), id, kind);
    FeeReply(cfg, Run(cfg, db', steps), m, id, kind, later);
  }

  /** A fee message that changes the ledger finds an open invoice and leaves its line. */
  lemma FeeLands(cfg: Config, db: Tables, m: Message, now: Instant)
    requires LedgerOk(cfg, db) && Stamped(m) && (m.Cancelled? || m.Expired?)
    requires Handle(cfg, db, m, now, Healthy).db != db
    ensures
      var db' := Handle(cfg, db, m, now, Healthy).db;
      && LedgerOk(cfg, db')
      && FindInvoice(db, m.reservation).Found? && FindInvoice(db', m.reservation) == FindInvoice(db, m.reservation)
      && HasKind(Of(db'.lines, FindInvoice(db, m.reservation).invoice), if m.Cancelled? then Cancellation else NoShow)
  {
    var id := FindInvoice(db, m.reservation).invoice;
    var kind := if m.Cancelled? then Cancellation else NoShow;
    var fee := if m.Cancelled? then CancelFee(cfg, m.confirmedAt, m.cancelledAt) else cfg.noShow;
    FeeSound(cfg, db, id, kind, fee, Healthy);
    FeeIsSettled(cfg, db, m.reservation, kind, fee, id);
    AppendActsOnOneAccount(db, id, Line(kind, fee), FeeAdded(kind, fee), Healthy);
  }

  lemma KindLasts(cfg: Config, db: Tables, db': Tables, id: nat, kind: LineKind)
    requires LedgerOk(cfg, db) && LedgerOk(cfg, db') && Grows(db, db') && id < |db.invoices|
    requires HasKind(Of(db.lines, id), kind)
    ensures HasKind(Of(db'.lines, id), kind)
    ensures ByReservation(db'.invoices, db.invoices[id].reservation) == Some(id)
  {
    assert Continues(AccountOf(db, id), AccountOf(db', id));
    ReservationFindsInvoice(db', id);
    PrefixKeepsKinds(Of(db.lines, id), Of(db'.lines, id), kind);
  }

  lemma FeeReply(cfg: Config, db: Tables, m: Message, id: nat, kind: LineKind, now: Instant)
    requires LedgerOk(cfg, db) && (m.Cancelled? || m.Expired?) && kind == if m.Cancelled? then Cancellation else NoShow
    requires m.Cancelled? ==> CancelFee(cfg, m.confirmedAt, CancelTime(m.cancelledAt, now)) != 0
    requires FindInvoice(db, m.reservation) == Found(id) && HasKind(Of(db.lines, id), kind)
    ensures Handle(cfg, db, m, now, Healthy) == Handled(db, if IsClosed(db, id) then Ack else Nack)
  {
    assert AccountOk(cfg, AccountOf(db, id));
  }

  /* ---------- retries have the effect of one attempt ---------- */

  /** The fee of a cancellation that is handled at `now`. */
  function FeeAt(cfg: Config, m: Message, now: Instant): nat
    requires m.Cancelled?
  {
    CancelFee(cfg, m.confirmedAt, CancelTime(m.cancelledAt, now))
  }

  /** A cancellation that is free at `now` and costs something at `later`. */
  predicate FreeThenCharged(cfg: Config, m: Message, now: Instant, later: Instant) {
    m.Cancelled? && FeeAt(cfg, m, now) == 0 && FeeAt(cfg, m, later) != 0
  }

  predicate OpenInvoiceWithout(db: Tables, reservation: string, kind: LineKind) {
    FindInvoice(db, reservation).Found? && OpenWithout(db, reservation, kind)
  }

  lemma FeeAgain(cfg: Config, db: Tables, reservation: string, kind: LineKind, amount: int, fault: Fault)
    requires LedgerOk(cfg, db) && FeeOk(cfg, kind, amount)
    ensures
      var once := ApplyFee(db, reservation, kind, amount, false, Healthy).db;
      ApplyFee(once, reservation, kind, amount, false, fault).db == once
  {
    if FindInvoice(db, reservation).Found? {
      FeeIsSettled(cfg, db, reservation, kind, amount, FindInvoice(db, reservation).invoice);
    }
  }

  lemma CheckoutAgain(cfg: Config, db: Tables, m: Message, now: Instant, later: Instant, fault: Fault)
    requires LedgerOk(cfg, db) && m.CheckedOut?
    ensures
      var once := Handle(cfg, db, m, now, Healthy).db;
      Handle(cfg, once, m, later, fault).db == once
  {
    if FindInvoice(db, m.reservation).Found? {
      CheckoutIsSettled(cfg, db, FindInvoice(db, m.reservation).invoice, m, now);
      SettledIsNoOp(cfg, Handle(cfg, db, m, now, Healthy).db, m, later, fault);
    }
  }

  lemma CreatedAgain(cfg: Config, db: Tables, m: Message, now: Instant, later: Instant, fault: Fault)
    requires LedgerOk(cfg, db) && m.Created?
    ensures
      var once := Handle(cfg, db, m, now, Healthy).db;
      Handle(cfg, once, m, later, fault).db == once
  {
    OpenActsOnFreshAccount(db, m.reservation, m.driver, m.reservation, cfg.booking, Opened(cfg.booking), Healthy);
    var once := Handle(cfg, db, m, now, Healthy).db;
    if once != db {
      ReservationFindsInvoice(once, |db.invoices|);
    }
  }

  lemma CancelAgain(cfg: Config, db: Tables, m: Message, now: Instant, later: Instant, fault: Fault)
    requires LedgerOk(cfg, db) && m.Cancelled?
    ensures
      var once := Handle(cfg, db, m, now, Healthy).db;
      Handle(cfg, once, m, later, fault).db != once <==>
        FreeThenCharged(cfg, m, now, later) && OpenInvoiceWithout(db, m.reservation, Cancellation) && !fault.BeforeCommit?
  {
    if FeeAt(cfg, m, now) != 0 {
      FeeAgain(cfg, db, m.reservation, Cancellation, FeeAt(cfg, m, now), fault);
    } else if FreeThenCharged(cfg, m, now, later) && OpenInvoiceWithout(db, m.reservation, Cancellation) && !fault.BeforeCommit? {
      assert |Handle(cfg, db, m, later, fault).db.lines| == |db.lines| + 1;
    }
  }

  /** Handling a message a second time, at whatever later time and with whatever fault,
      changes the ledger exactly when it is a cancellation that was free the first time
      and costs something now, on an open invoice without a cancellation line. A message
      that carries its cancellation time never does. */
  lemma SecondHandlingChangesIff(cfg: Config, db: Tables, m: Message, now: Instant, later: Instant, fault: Fault)
    requires LedgerOk(cfg, db)
    ensures
      var once := Handle(cfg, db, m, now, Healthy).db;
      Handle(cfg, once, m, later, fault).db != once <==>
        FreeThenCharged(cfg, m, now, later) && OpenInvoiceWithout(db, m.reservation, Cancellation) && !fault.BeforeCommit?
    ensures Stamped(m) || now == later ==> !FreeThenCharged(cfg, m, now, later)
  {
    match m
    case Created(_, _) => CreatedAgain(cfg, db, m, now, later, fault);
    case Cancelled(_, _, _) => CancelAgain(cfg, db, m, now, later, fault);
    case Expired(reservation) => FeeAgain(cfg, db, reservation, NoShow, cfg.noShow, fault);
    case CheckedOut(_, _, _, _) => CheckoutAgain(cfg, db, m, now, later, fault);
    case Undecodable =>
    case Unrouted =>
  }

  /** One attempt at a message: when it is made and where it fails. */
  datatype Attempt = Attempt(now: Instant, fault: Fault)

  function Attempts(m: Message, tries: seq<Attempt>): seq<Step> {
    seq(|tries|, i requires 0 <= i < |tries| => Deliver(m, tries[i].now, tries[i].fault))
  }

  /** The time of the first attempt that got as far as its commit. */
  function FirstCommit(tries: seq<Attempt>): Option<Instant> {
    if tries == [] then None
    else
      var earlier, last := FirstCommit(tries[..|tries| - 1]), tries[|tries| - 1];
      if earlier.Some? then earlier else if last.fault.BeforeCommit? then None else Some(last.now)
  }

  /** The ledger after one healthy attempt at the given time, if any. */
  function HandledAt(cfg: Config, db: Tables, m: Message, at: Option<Instant>): Tables {
    if at.None? then db else Handle(cfg, db, m, at.value, Healthy).db
  }

  lemma AttemptStep(cfg: Config, db: Tables, m: Message, earlier: Option<Instant>, last: Attempt)
    requires LedgerOk(cfg, db) && Stamped(m)
    ensures
      Do(cfg, HandledAt(cfg, db, m, earlier), Deliver(m, last.now, last.fault)) ==
        HandledAt(cfg, db, m, if earlier.Some? then earlier else if last.fault.BeforeCommit? then None else Some(last.now))
  {
    if earlier.Some? {
      SecondHandlingChangesIff(cfg, db, m, earlier.value, last.now, last.fault);
    } else {
      FaultEffect(cfg, db, m, last.now);
    }
  }

  /** Any number of attempts at a message that carries its cancellation time, each at its
      own time and failing before its commit, after it or not at all, leave the ledger
      that a single healthy attempt at the time of the first commit leaves; if none
      committed they leave it as it was. */
  lemma {:induction false} RetriesHaveOneEffect(cfg: Config, db: Tables, m: Message, tries: seq<Attempt>)
    requires LedgerOk(cfg, db) && Stamped(m)
    ensures Run(cfg, db, Attempts(m, tries)) == HandledAt(cfg, db, m, FirstCommit(tries))
  {
    if tries != [] {
      var n := |tries| - 1;
      RetriesHaveOneEffect(cfg, db, m, tries[..n]);
      assert Attempts(m, tries)[..n] == Attempts(m, tries[..n]);
      AttemptStep(cfg, db, m, FirstCommit(tries[..n]), tries[n]);
    }
  }

  /* ---------- an acknowledgement has a lasting effect ---------- */

  ghost predicate ConsumerOnly(steps: seq<Step>) {
    forall i :: 0 <= i < |steps| ==> steps[i].Deliver?
  }

  ghost predicate KeyedByReservation(db: Tables) {
    forall i :: 0 <= i < |db.invoices| ==> db.invoices[i].key == db.invoices[i].reservation
  }

  ghost predicate SameKeys(a: seq<Invoice>, b: seq<Invoice>) {
    |a| == |b| && forall i :: 0 <= i < |a| ==> a[i].key == b[i].key && a[i].reservation == b[i].reservation
  }

  lemma AppendKeepsKeys(db: Tables, id: nat, l: Line, evt: Announcement, fault: Fault)
    ensures SameKeys(db.invoices, AppendTx(db, id, l, evt, fault).db.invoices)
  {
  }

  lemma CloseKeepsKeys(db: Tables, id: nat, batch: seq<Line>, evt: Announcement, now: Instant, fault: Fault)
    ensures SameKeys(db.invoices, CloseTx(db, id, batch, evt, now, fault).db.invoices)
  {
  }

  lemma HandleKeepsKeys(cfg: Config, db: Tables, m: Message, now: Instant, fault: Fault)
    requires KeyedByReservation(db)
    ensures KeyedByReservation(Handle(cfg, db, m, now, fault).db)
  {
    if (m.Cancelled? || m.Expired? || m.CheckedOut?) && FindInvoice(db, m.reservation).Found? {
      var id := FindInvoice(db, m.reservation).invoice;
      match m
      case Cancelled(_, confirmedAt, cancelledAt) =>
        var fee := CancelFee(cfg, confirmedAt, CancelTime(cancelledAt, now));
        AppendKeepsKeys(db, id, Line(Cancellation, fee), FeeAdded(Cancellation, fee), fault);
      case Expired(_) =>
        AppendKeepsKeys(db, id, Line(NoShow, cfg.noShow), FeeAdded(NoShow, cfg.noShow), fault);
      case CheckedOut(_, confirmedAt, checkedInAt, checkedOutAt) =>
        var quote := Quote(cfg, PlainSession(confirmedAt, checkedInAt, checkedOutAt));
        CloseKeepsKeys(db, id, DropFreeCancellation(quote), ClosedWith(quote), now, fault);
    }
  }

  lemma {:induction false} ConsumerKeepsKeys(cfg: Config, steps: seq<Step>)
    requires ConsumerOnly(steps)
    ensures KeyedByReservation(Run(cfg, EMPTY, steps))
  {
    if steps != [] {
      var init, last := steps[..|steps| - 1], steps[|steps| - 1];
      ConsumerKeepsKeys(cfg, init);
      HandleKeepsKeys(cfg, Run(cfg, EMPTY, init), last.message, last.now, last.fault);
    }
  }

  /** The reply that step `i` of a run got. */
  function ReplyAt(cfg: Config, steps: seq<Step>, i: nat): Reply
    requires i < |steps| && steps[i].Deliver?
  {
    Handle(cfg, Run(cfg, EMPTY, steps[..i]), steps[i].message, steps[i].now, steps[i].fault).reply
  }

  lemma Later(cfg: Config, steps: seq<Step>, i: nat)
    requires i <= |steps|
    ensures LedgerOk(cfg, Run(cfg, EMPTY, steps[..i])) && LedgerOk(cfg, Run(cfg, EMPTY, steps))
    ensures Grows(Run(cfg, EMPTY, steps[..i]), Run(cfg, EMPTY, steps))
  {
    assert steps == steps[..i] + steps[i..];
    RunConcat(cfg, EMPTY, steps[..i], steps[i..]);
    RunOk(cfg, EMPTY, steps[..i]);
    RunOk(cfg, Run(cfg, EMPTY, steps[..i]), steps[i..]);
  }

  lemma StepAt(cfg: Config, steps: seq<Step>, i: nat)
    requires i < |steps|
    ensures Run(cfg, EMPTY, steps[..i + 1]) == Do(cfg, Run(cfg, EMPTY, steps[..i]), steps[i])
  {
    assert steps[..i + 1][..i] == steps[..i];
  }

  /** In a consumer-only run, once a created event that names a reservation is
      acknowledged, the reservation has an invoice ever after. */
  lemma AckedCreatedLasts(cfg: Config, steps: seq<Step>, i: nat)
    requires ConsumerOnly(steps) && i < |steps|
    requires steps[i].message.Created? && steps[i].message.reservation != "" && ReplyAt(cfg, steps, i) == Ack
    ensures ByReservation(Run(cfg, EMPTY, steps).invoices, steps[i].message.reservation).Some?
  {
    var r := steps[i].message.reservation;
    var before, after := Run(cfg, EMPTY, steps[..i]), Run(cfg, EMPTY, steps[..i + 1]);
    StepAt(cfg, steps, i);
    ConsumerKeepsKeys(cfg, steps[..i]);
    Later(cfg, steps, i);
    OpenActsOnFreshAccount(before, r, steps[i].message.driver, r, cfg.booking, Opened(cfg.booking), steps[i].fault);
    Later(cfg, steps, i + 1);
    var id := ByReservation(after.invoices, r).value;
    assert Continues(AccountOf(after, id), AccountOf(Run(cfg, EMPTY, steps), id));
    ReservationFindsInvoice(Run(cfg, EMPTY, steps), id);
  }

  /** In any serial run, once a checked-out event is acknowledged its reservation's
      invoice is closed ever after. */
  lemma AckedCheckoutLasts(cfg: Config, steps: seq<Step>, i: nat)
    requires i < |steps| && steps[i].Deliver? && steps[i].message.CheckedOut? && ReplyAt(cfg, steps, i) == Ack
    ensures
      var final := Run(cfg, EMPTY, steps);
      var found := ByReservation(final.invoices, steps[i].message.reservation);
      found.Some? && IsClosed(final, found.value)
  {
    var before, after := Run(cfg, EMPTY, steps[..i]), Run(cfg, EMPTY, steps[..i + 1]);
    StepAt(cfg, steps, i);
    Later(cfg, steps, i);
    Later(cfg, steps, i + 1);
    var id := FindInvoice(before, steps[i].message.reservation).invoice;
    CheckoutCloses(cfg, before, id, steps[i].message, steps[i].now, steps[i].fault);
    assert Continues(AccountOf(before, id), AccountOf(Run(cfg, EMPTY, steps), id));
    assert Continues(AccountOf(after, id), AccountOf(Run(cfg, EMPTY, steps), id));
    ReservationFindsInvoice(Run(cfg, EMPTY, steps), id);
  }

  /** The fee event costs something when it is handled at `now`. */
  predicate Charged(cfg: Config, m: Message, now: Instant) {
    || m.Expired?
    || (m.Cancelled? && cfg.cancel != 0 && !Free(cfg, m.confirmedAt, if Unset(m.cancelledAt) then now else m.cancelledAt))
  }

  function FeeLine(cfg: Config, m: Message): Line {
    if m.Cancelled? then Line(Cancellation, cfg.cancel) else Line(NoShow, cfg.noShow)
  }

  lemma ChargedFeeResult(cfg: Config, db: Tables, id: nat, m: Message, now: Instant, fault: Fault)
    requires LedgerOk(cfg, db) && (m.Cancelled? || m.Expired?) && Bills(db, id, m.reservation)
    requires Charged(cfg, m, now) && !fault.BeforeCommit?
    ensures FeeResult(db, Handle(cfg, db, m, now, fault), id, FeeLine(cfg, m).kind, FeeLine(cfg, m).amount, fault)
  {
    if m.Cancelled? {
      CancelledCharges(cfg, db, id, m.reservation, m.confirmedAt, m.cancelledAt, now, fault);
    } else {
      ExpiredCharges(cfg, db, id, m.reservation, now, fault);
    }
  }

  /** A charged fee event that is acknowledged on an open invoice leaves its line there. */
  lemma AckedFeeLeavesLine(cfg: Config, db: Tables, id: nat, m: Message, now: Instant, fault: Fault)
    requires LedgerOk(cfg, db) && (m.Cancelled? || m.Expired?) && Bills(db, id, m.reservation)
    requires db.invoices[id].status == Open && Charged(cfg, m, now)
    requires Handle(cfg, db, m, now, fault).reply == Ack
    ensures
      var db' := Handle(cfg, db, m, now, fault).db;
      id < |db'.invoices| && AccountOf(db', id).lines == AccountOf(db, id).lines + [FeeLine(cfg, m)]
  {
    if fault.BeforeCommit? {
      EarlyFailureIsRefused(cfg, db, m, now);
    } else {
      ChargedFeeResult(cfg, db, id, m, now, fault);
    }
  }

  /** What acknowledging a cancelled or expired event means, whatever fails: there was no
      invoice, it was not open, nothing was due, or the line is there now. */
  lemma AckedFeeMeans(cfg: Config, db: Tables, m: Message, now: Instant, fault: Fault)
    requires LedgerOk(cfg, db) && (m.Cancelled? || m.Expired?)
    requires Handle(cfg, db, m, now, fault).reply == Ack
    ensures !fault.BeforeCommit? && ValidUuid(m.reservation)
    ensures
      var db' := Handle(cfg, db, m, now, fault).db;
      || Unbilled(db, m.reservation)
      || !Charged(cfg, m, now)
      || exists id: nat :: && Bills(db, id, m.reservation) && id < |db'.invoices|
                      && (db.invoices[id].status == Closed || FeeLine(cfg, m) in AccountOf(db', id).lines)
  {
    if fault.BeforeCommit? {
      EarlyFailureIsRefused(cfg, db, m, now);
    } else if !ValidUuid(m.reservation) {
      assert false;
    } else if !Unbilled(db, m.reservation) && Charged(cfg, m, now) {
      var id: nat :| id < |db.invoices| && db.invoices[id].reservation == m.reservation;
      assert AccountOk(cfg, AccountOf(db, id));
      if db.invoices[id].status == Open {
        AckedFeeLeavesLine(cfg, db, id, m, now, fault);
      } else {
        ChargedFeeResult(cfg, db, id, m, now, fault);
      }
      assert Bills(db, id, m.reservation);
    }
  }

  /** In any serial run, once a charged fee event is acknowledged while its invoice is
      open, the invoice carries its line ever after. */
  lemma AckedFeeLasts(cfg: Config, steps: seq<Step>, i: nat, id: nat)
    requires i < |steps| && steps[i].Deliver? && (steps[i].message.Cancelled? || steps[i].message.Expired?)
    requires ReplyAt(cfg, steps, i) == Ack && Charged(cfg, steps[i].message, steps[i].now)
    requires
      var before := Run(cfg, EMPTY, steps[..i]);
      Bills(before, id, steps[i].message.reservation) && before.invoices[id].status == Open
    ensures
      var final := Run(cfg, EMPTY, steps);
      id < |final.invoices| && FeeLine(cfg, steps[i].message) in AccountOf(final, id).lines
  {
    var before, after, final := Run(cfg, EMPTY, steps[..i]), Run(cfg, EMPTY, steps[..i + 1]), Run(cfg, EMPTY, steps);
    StepAt(cfg, steps, i);
    Later(cfg, steps, i);
    AckedFeeLeavesLine(cfg, before, id, steps[i].message, steps[i].now, steps[i].fault);
    Later(cfg, steps, i + 1);
    assert Continues(AccountOf(after, id), AccountOf(final, id));
    LastIsIn(AccountOf(before, id).lines, FeeLine(cfg, steps[i].message), AccountOf(final, id).lines);
  }

  lemma LastIsIn(lines: seq<Line>, l: Line, all: seq<Line>)
    requires lines + [l] <= all
    ensures l in all
  {
    assert all[|lines|] == (lines + [l])[|lines|];
  }

  /** With gRPC opens in play, acknowledging a created event implies an invoice exactly
      when no invoice of another reservation holds the reservation id as its key. */
  lemma AckedCreatedHasInvoiceIff(cfg: Config, db: Tables, reservation: string, driver: string, now: Instant)
    requires LedgerOk(cfg, db) && ValidUuid(reservation)
    ensures
      var h := Handle(cfg, db, Created(reservation, driver), now, Healthy);
      (h.reply == Ack ==> ByReservation(h.db.invoices, reservation).Some?)
      <==> !(ByKey(db.invoices, reservation).Some? && ByReservation(db.invoices, reservation).None?)
  {
    UuidIsNotBlank(reservation);
    OpenSound(cfg, db, reservation, driver, reservation, Healthy);
    OpenActsOnFreshAccount(db, reservation, driver, reservation, cfg.booking, Opened(cfg.booking), Healthy);
    var h := Handle(cfg, db, Created(reservation, driver), now, Healthy);
    if h.db != db {
      ReservationFindsInvoice(h.db, |db.invoices|);
    }
  }

  /** Such a collision is reachable: a gRPC open whose key is another reservation's id
      makes that reservation's created event acknowledged without an invoice. */
  lemma AckedCreatedWithoutInvoice(cfg: Config, taken: string, lost: string, driver: string)
    requires ValidUuid(taken) && ValidUuid(lost) && taken != lost
    ensures
      var db := Do(cfg, EMPTY, GrpcOpen(taken, driver, lost, Healthy));
      && Handle(cfg, db, Created(lost, driver), 0, Healthy) == Handled(db, Ack)
      && ByReservation(db.invoices, lost).None?
  {
    UuidIsNotBlank(taken);
    UuidIsNotBlank(lost);
    var db := Do(cfg, EMPTY, GrpcOpen(taken, driver, lost, Healthy));
    assert db.invoices == [Invoice(taken, driver, Open, cfg.booking, lost, None)];
    assert ByKey(db.invoices, lost) == Some(0);
  }

  /* ---------- open is idempotent ---------- */

  /** A successful open leaves an invoice with the requested key, new or old. */
  lemma OpenedUnderKey(cfg: Config, db: Tables, reservation: string, driver: string, key: string)
    requires LedgerOk(cfg, db) && OpenInvoice(cfg, db, reservation, driver, key, Healthy).outcome.Ok?
    ensures
      var r := OpenInvoice(cfg, db, reservation, driver, key, Healthy);
      r.outcome.invoice < |r.db.invoices| && r.db.invoices[r.outcome.invoice].key == key
  {
  }

  lemma KeyReplays(cfg: Config, db: Tables, id: nat, key: string, reservation: string, driver: string)
    requires Integrity(db) && id < |db.invoices| && db.invoices[id].key == key && !Blank(key)
    ensures OpenInvoice(cfg, db, reservation, driver, key, Healthy).db == db
    ensures ValidUuid(reservation) ==> OpenInvoice(cfg, db, reservation, driver, key, Healthy) == Result(db, Ok(id))
  {
    ReservationFindsInvoice(db, id);
    if ValidUuid(reservation) {
      UuidIsNotBlank(reservation);
    }
  }

  /** After an open with key `k` succeeded, in every interleaving every later open with
      `k` returns that invoice and writes nothing. */
  lemma OpenReplaysForever(cfg: Config, w: World, reservation: string, driver: string, key: string,
                           actions: seq<Action>, reservation': string, driver': string)
    requires Sound(cfg, w) && OpenInvoice(cfg, w.db, reservation, driver, key, Healthy).outcome.Ok?
    ensures
      var first := OpenInvoice(cfg, w.db, reservation, driver, key, Healthy);
      var later := Exec(cfg, World(first.db, w.tasks), actions).db;
      && OpenInvoice(cfg, later, reservation', driver', key, Healthy).db == later
      && (ValidUuid(reservation') ==> OpenInvoice(cfg, later, reservation', driver', key, Healthy) == Result(later, first.outcome))
  {
    var first := OpenInvoice(cfg, w.db, reservation, driver, key, Healthy);
    OpenedUnderKey(cfg, w.db, reservation, driver, key);
    OpenSound(cfg, w.db, reservation, driver, key, Healthy);
    TasksLast(cfg, w, first.db, w.tasks);
    var id := first.outcome.invoice;
    ExecSound(cfg, World(first.db, w.tasks), actions);
    var later := Exec(cfg, World(first.db, w.tasks), actions).db;
    assert Continues(AccountOf(first.db, id), AccountOf(later, id));
    KeyReplays(cfg, later, id, key, reservation', driver');
  }

  /** A new key for a reservation that already has an invoice writes nothing and is
      answered with not-found. */
  lemma NewKeyForTakenReservation(cfg: Config, db: Tables, reservation: string, driver: string, key: string)
    requires ValidUuid(reservation) && !Blank(key)
    requires ByReservation(db.invoices, reservation).Some? && ByKey(db.invoices, key).None?
    ensures OpenInvoice(cfg, db, reservation, driver, key, Healthy) == Result(db, Fail(NotFound))
  {
    UuidIsNotBlank(reservation);
  }
}
