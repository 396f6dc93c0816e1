/** Consumer-only runs, seen from one reservation. */
module Projection {
  import opened Pricing
  import opened Accounts
  import opened Ledger
  import opened Billing
  import opened Interleaving
  import opened Delivery
  import opened Acknowledgement

  /** The account of a reservation. It holds no generated id. */
  function View(db: Tables, reservation: string): Option<Account> {
    match ByReservation(db.invoices, reservation)
    case None => None
    case Some(id) => Some(AccountOf(db, id))
  }

  function OrElse(next: Option<Account>, a: Account): Option<Account> {
    if next.None? then Some(a) else next
  }

  function FeeOnView(v: Option<Account>, kind: LineKind, amount: int): Option<Account> {
    if v.None? || v.value.row.status != Open then v
    else OrElse(AddFee(v.value, kind, amount), v.value)
  }

  /** Effect of one message on the account of the reservation it names, written without
      any reference to the tables. */
  function HandleView(cfg: Config, v: Option<Account>, m: Message, now: Instant, fault: Fault): Option<Account> {
    if fault.BeforeCommit? || m.Undecodable? || m.Unrouted? || !ValidUuid(m.reservation) then v
    else
      match m
      case Created(reservation, driver) =>
        if v.Some? then v else Some(OpenAccount(reservation, driver, reservation, cfg.booking, Opened(cfg.booking)))
      case Cancelled(_, confirmedAt, cancelledAt) =>
        var fee := CancelFee(cfg, confirmedAt, CancelTime(cancelledAt, now));
        if fee == 0 then v else FeeOnView(v, Cancellation, fee)
      case Expired(_) => FeeOnView(v, NoShow, cfg.noShow)
      case CheckedOut(_, confirmedAt, checkedInAt, checkedOutAt) =>
        if v.None? then v
        else OrElse(CloseSession(cfg, v.value, PlainSession(confirmedAt, checkedInAt, checkedOutAt), now), v.value)
  }

  predicate Concerns(m: Message, reservation: string) {
    !m.Undecodable? && !m.Unrouted? && m.reservation == reservation
  }

  /** Every account but that of `id` is found as before. */
  lemma ViewFrame(db: Tables, db': Tables, id: nat, reservation: string)
    requires Integrity(db) && Integrity(db') && |db'.invoices| == |db.invoices| && id < |db.invoices|
    requires OnlyTouches(db, db', id)
    requires db'.invoices[id].reservation == db.invoices[id].reservation
    ensures View(db', reservation) ==
              if reservation == db.invoices[id].reservation then Some(AccountOf(db', id)) else View(db, reservation)
  {
    forall j | 0 <= j < |db.invoices|
      ensures db'.invoices[j].reservation == db.invoices[j].reservation
    {
      assert j != id ==> AccountOf(db', j) == AccountOf(db, j);
    }
    if ByReservation(db.invoices, reservation).Some? {
      var j := ByReservation(db.invoices, reservation).value;
      ReservationFindsInvoice(db, j);
      ReservationFindsInvoice(db', j);
      ReservationFindsInvoice(db, id);
    }
  }

  lemma FeeView(cfg: Config, db: Tables, id: nat, kind: LineKind, amount: int, fault: Fault, reservation: string)
    requires LedgerOk(cfg, db) && FeeOk(cfg, kind, amount) && id < |db.invoices| && !fault.BeforeCommit?
    ensures
      var db' := AppendTx(db, id, Line(kind, amount), FeeAdded(kind, amount), fault).db;
      View(db', reservation) ==
        if reservation == db.invoices[id].reservation
        then OrElse(AddFee(AccountOf(db, id), kind, amount), AccountOf(db, id)) else View(db, reservation)
  {
    FeeSound(cfg, db, id, kind, amount, fault);
    AppendActsOnOneAccount(db, id, Line(kind, amount), FeeAdded(kind, amount), fault);
    var db' := AppendTx(db, id, Line(kind, amount), FeeAdded(kind, amount), fault).db;
    assert Continues(AccountOf(db, id), AccountOf(db', id));
    ViewFrame(db, db', id, reservation);
  }

  lemma CloseView(cfg: Config, db: Tables, id: nat, s: Session, now: Instant, fault: Fault, reservation: string)
    requires LedgerOk(cfg, db) && id < |db.invoices| && !fault.BeforeCommit?
    ensures
      var db' := CloseInvoice(cfg, db, id, s, now, fault).db;
      View(db', reservation) ==
        if reservation == db.invoices[id].reservation
        then OrElse(CloseSession(cfg, AccountOf(db, id), s, now), AccountOf(db, id)) else View(db, reservation)
  {
    CloseSound(cfg, db, id, s, now, fault);
    CloseActsOnOneAccount(db, id, DropFreeCancellation(Quote(cfg, s)), ClosedWith(Quote(cfg, s)), now, fault);
    var db' := CloseInvoice(cfg, db, id, s, now, fault).db;
    assert Continues(AccountOf(db, id), AccountOf(db', id));
    ViewFrame(db, db', id, reservation);
  }

  lemma CreatedOwnView(cfg: Config, db: Tables, m: Message, now: Instant, fault: Fault)
    requires LedgerOk(cfg, db) && KeyedByReservation(db) && m.Created? && ValidUuid(m.reservation)
    ensures View(Handle(cfg, db, m, now, fault).db, m.reservation) ==
              HandleView(cfg, View(db, m.reservation), m, now, fault)
  {
    UuidIsNotBlank(m.reservation);
    OpenActsOnFreshAccount(db, m.reservation, m.driver, m.reservation, cfg.booking, Opened(cfg.booking), fault);
    var db' := Handle(cfg, db, m, now, fault).db;
    if db' != db {
      ReservationFindsInvoice(db', |db.invoices|);
    } else if ByKey(db.invoices, m.reservation).Some? {
      var id := ByKey(db.invoices, m.reservation).value;
      assert db.invoices[id].key == db.invoices[id].reservation;
    }
  }

  lemma CreatedOtherView(cfg: Config, db: Tables, m: Message, now: Instant, fault: Fault, reservation: string)
    requires LedgerOk(cfg, db) && m.Created? && m.reservation != reservation
    ensures View(Handle(cfg, db, m, now, fault).db, reservation) == View(db, reservation)
  {
    OpenActsOnFreshAccount(db, m.reservation, m.driver, m.reservation, cfg.booking, Opened(cfg.booking), fault);
    var db' := Handle(cfg, db, m, now, fault).db;
    if db' != db && ByReservation(db.invoices, reservation).Some? {
      var j := ByReservation(db.invoices, reservation).value;
      assert AccountOf(db', j) == AccountOf(db, j);
      ReservationFindsInvoice(db', j);
    }
  }

  lemma FeeMessageView(cfg: Config, db: Tables, own: string, kind: LineKind, amount: int, fault: Fault, reservation: string)
    requires LedgerOk(cfg, db) && FeeOk(cfg, kind, amount) && !fault.BeforeCommit? && ValidUuid(own)
    ensures View(ApplyFee(db, own, kind, amount, false, fault).db, reservation) ==
              if own == reservation then FeeOnView(View(db, reservation), kind, amount) else View(db, reservation)
  {
    if FindInvoice(db, own).Found? {
      FeeView(cfg, db, FindInvoice(db, own).invoice, kind, amount, fault, reservation);
    }
  }

  lemma CheckoutView(cfg: Config, db: Tables, m: Message, now: Instant, fault: Fault, reservation: string)
    requires LedgerOk(cfg, db) && m.CheckedOut? && !fault.BeforeCommit? && ValidUuid(m.reservation)
    ensures
      View(Handle(cfg, db, m, now, fault).db, reservation) ==
        if Concerns(m, reservation) then HandleView(cfg, View(db, reservation), m, now, fault) else View(db, reservation)
  {
    if FindInvoice(db, m.reservation).Found? {
      CloseView(cfg, db, FindInvoice(db, m.reservation).invoice,
                PlainSession(m.confirmedAt, m.checkedInAt, m.checkedOutAt), now, fault, reservation);
    }
  }

  /** One message acts on the account of its own reservation, as HandleView says, and on
      no other. */
  lemma HandleActsOnView(cfg: Config, db: Tables, m: Message, now: Instant, fault: Fault, reservation: string)
    requires LedgerOk(cfg, db) && KeyedByReservation(db)
    ensures
      View(Handle(cfg, db, m, now, fault).db, reservation) ==
        if Concerns(m, reservation) then HandleView(cfg, View(db, reservation), m, now, fault) else View(db, reservation)
  {
    if m.Created? {
      if m.reservation != reservation {
        CreatedOtherView(cfg, db, m, now, fault, reservation);
      } else if ValidUuid(reservation) {
        CreatedOwnView(cfg, db, m, now, fault);
      }
    } else if !m.Undecodable? && !m.Unrouted? && !fault.BeforeCommit? && ValidUuid(m.reservation) {
      match m
      case Cancelled(_, confirmedAt, cancelledAt) =>
        var fee := CancelFee(cfg, confirmedAt, CancelTime(cancelledAt, now));
        if fee != 0 {
          FeeMessageView(cfg, db, m.reservation, Cancellation, fee, fault, reservation);
        }
      case Expired(_) => FeeMessageView(cfg, db, m.reservation, NoShow, cfg.noShow, fault, reservation);
      case CheckedOut(_, _, _, _) => CheckoutView(cfg, db, m, now, fault, reservation);
    }
  }

  /** The deliveries of a run that name a given reservation. */
  function Only(steps: seq<Step>, reservation: string): seq<Step> {
    if steps == [] then []
    else
      var init, last := Only(steps[..|steps| - 1], reservation), steps[|steps| - 1];
      if last.Deliver? && Concerns(last.message, reservation) then init + [last] else init
  }

  lemma {:induction false} OnlyIsConsumerOnly(steps: seq<Step>, reservation: string)
    ensures ConsumerOnly(Only(steps, reservation))
  {
    if steps != [] {
      OnlyIsConsumerOnly(steps[..|steps| - 1], reservation);
    }
  }

  /** In a consumer-only run the account of a reservation is what its own deliveries
      alone would have made it, whatever else was delivered in between. */
  lemma {:induction false} NonInterference(cfg: Config, steps: seq<Step>, reservation: string)
    requires ConsumerOnly(steps)
    ensures View(Run(cfg, EMPTY, steps), reservation) == View(Run(cfg, EMPTY, Only(steps, reservation)), reservation)
  {
    if steps != [] {
      var init, last := steps[..|steps| - 1], steps[|steps| - 1];
      NonInterference(cfg, init, reservation);
      var mine := Only(init, reservation);
      OnlyIsConsumerOnly(init, reservation);
      ConsumerKeepsKeys(cfg, init);
      ConsumerKeepsKeys(cfg, mine);
      RunOk(cfg, EMPTY, init);
      RunOk(cfg, EMPTY, mine);
      HandleActsOnView(cfg, Run(cfg, EMPTY, init), last.message, last.now, last.fault, reservation);
      HandleActsOnView(cfg, Run(cfg, EMPTY, mine), last.message, last.now, last.fault, reservation);
      assert (mine + [last])[..|mine|] == mine;
    }
  }

  /* ---------- cancellation and no-show commute ---------- */

  /** Equal up to the order of lines and of outbox rows. */
  ghost predicate SameUpToOrder(v: Option<Account>, u: Option<Account>) {
    || (v.None? && u.None?)
    || (&& v.Some? && u.Some? && v.value.row == u.value.row
        && multiset(v.value.lines) == multiset(u.value.lines)
        && multiset(v.value.events) == multiset(u.value.events))
  }

  lemma HasKindSnoc(lines: seq<Line>, l: Line, k: LineKind)
    ensures HasKind(lines + [l], k) <==> HasKind(lines, k) || l.kind == k
  {
    if HasKind(lines, k) {
      var i :| 0 <= i < |lines| && lines[i].kind == k;
      assert (lines + [l])[i].kind == k;
    }
    if l.kind == k {
      assert (lines + [l])[|lines|].kind == k;
    }
  }

  lemma FeesCommute(v: Option<Account>, cancelFee: int, noShowFee: int)
    ensures SameUpToOrder(FeeOnView(FeeOnView(v, Cancellation, cancelFee), NoShow, noShowFee),
                          FeeOnView(FeeOnView(v, NoShow, noShowFee), Cancellation, cancelFee))
  {
    if v.Some? {
      HasKindSnoc(v.value.lines, Line(Cancellation, cancelFee), NoShow);
      HasKindSnoc(v.value.lines, Line(NoShow, noShowFee), Cancellation);
    }
  }

  lemma SameKinds(a: seq<Line>, b: seq<Line>, k: LineKind)
    requires multiset(a) == multiset(b)
    ensures HasKind(a, k) <==> HasKind(b, k)
  {
    if i :| 0 <= i < |a| && a[i].kind == k {
      assert a[i] in multiset(b);
    }
    if i :| 0 <= i < |b| && b[i].kind == k {
      assert b[i] in multiset(a);
    }
  }

  lemma FeeRespectsOrder(v: Option<Account>, u: Option<Account>, kind: LineKind, amount: int)
    requires SameUpToOrder(v, u)
    ensures SameUpToOrder(FeeOnView(v, kind, amount), FeeOnView(u, kind, amount))
  {
    if v.Some? {
      SameKinds(v.value.lines, u.value.lines, kind);
    }
  }

  lemma CloseRespectsOrder(cfg: Config, a: Account, b: Account, s: Session, now: Instant)
    requires SameUpToOrder(Some(a), Some(b))
    ensures SameUpToOrder(OrElse(CloseSession(cfg, a, s, now), a), OrElse(CloseSession(cfg, b, s, now), b))
  {
    ClosingInsertsOneLine(cfg, a.lines, s);
    ClosingInsertsOneLine(cfg, b.lines, s);
    if ClosingLine(cfg, s).Some? {
      SameKinds(a.lines, b.lines, ClosingLine(cfg, s).value.kind);
    }
  }

  /** A message treats accounts that agree up to order alike. */
  lemma HandleRespectsOrder(cfg: Config, v: Option<Account>, u: Option<Account>, m: Message, now: Instant, fault: Fault)
    requires SameUpToOrder(v, u)
    ensures SameUpToOrder(HandleView(cfg, v, m, now, fault), HandleView(cfg, u, m, now, fault))
  {
    match m
    case Cancelled(_, confirmedAt, cancelledAt) =>
      FeeRespectsOrder(v, u, Cancellation, CancelFee(cfg, confirmedAt, CancelTime(cancelledAt, now)));
    case Expired(_) => FeeRespectsOrder(v, u, NoShow, cfg.noShow);
    case CheckedOut(_, confirmedAt, checkedInAt, checkedOutAt) =>
      if v.Some? {
        CloseRespectsOrder(cfg, v.value, u.value, PlainSession(confirmedAt, checkedInAt, checkedOutAt), now);
      }
    case Created(_, _) =>
    case Undecodable =>
    case Unrouted =>
  }

  /** A ledger that only the consumer wrote. */
  ghost predicate ConsumerMade(cfg: Config, db: Tables) {
    LedgerOk(cfg, db) && KeyedByReservation(db)
  }

  ghost predicate Agree(one: Tables, two: Tables, reservation: string) {
    SameUpToOrder(View(one, reservation), View(two, reservation))
  }

  lemma StepRespectsOrder(cfg: Config, one: Tables, two: Tables, step: Step, reservation: string)
    requires ConsumerMade(cfg, one) && ConsumerMade(cfg, two) && Agree(one, two, reservation) && step.Deliver?
    ensures Agree(Do(cfg, one, step), Do(cfg, two, step), reservation)
  {
    HandleActsOnView(cfg, one, step.message, step.now, step.fault, reservation);
    HandleActsOnView(cfg, two, step.message, step.now, step.fault, reservation);
    HandleRespectsOrder(cfg, View(one, reservation), View(two, reservation), step.message, step.now, step.fault);
  }

  lemma StepStaysConsumerMade(cfg: Config, db: Tables, step: Step)
    requires ConsumerMade(cfg, db) && step.Deliver?
    ensures ConsumerMade(cfg, Do(cfg, db, step))
  {
    HandleKeeps(cfg, db, step.message, step.now, step.fault);
    HandleKeepsKeys(cfg, db, step.message, step.now, step.fault);
  }

  /** Ledgers that agree on a reservation up to order still do after the same
      deliveries. */
  lemma {:induction false} SuffixRespectsOrder(cfg: Config, one: Tables, two: Tables, rest: seq<Step>, reservation: string)
    requires ConsumerMade(cfg, one) && ConsumerMade(cfg, two) && Agree(one, two, reservation) && ConsumerOnly(rest)
    ensures ConsumerMade(cfg, Run(cfg, one, rest)) && ConsumerMade(cfg, Run(cfg, two, rest))
    ensures Agree(Run(cfg, one, rest), Run(cfg, two, rest), reservation)
  {
    if rest != [] {
      var init, last := rest[..|rest| - 1], rest[|rest| - 1];
      SuffixRespectsOrder(cfg, one, two, init, reservation);
      StepRespectsOrder(cfg, Run(cfg, one, init), Run(cfg, two, init), last, reservation);
      StepStaysConsumerMade(cfg, Run(cfg, one, init), last);
      StepStaysConsumerMade(cfg, Run(cfg, two, init), last);
    }
  }

  /** A cancelled and an expired event of one reservation may arrive in either order at
      any point of a consumer-only run: the account is the same up to order, then and
      after whatever is delivered next. */
  lemma CancelAndExpiryCommute(cfg: Config, steps: seq<Step>, cancel: Step, expire: Step, rest: seq<Step>)
    requires ConsumerOnly(steps) && cancel.Deliver? && expire.Deliver? && ConsumerOnly(rest)
    requires cancel.message.Cancelled? && expire.message.Expired?
    requires cancel.message.reservation == expire.message.reservation
    ensures Agree(Run(cfg, EMPTY, steps + [cancel, expire] + rest), Run(cfg, EMPTY, steps + [expire, cancel] + rest),
                  cancel.message.reservation)
  {
    var r := cancel.message.reservation;
    var one, two := steps + [cancel, expire], steps + [expire, cancel];
    FinalPairCommutes(cfg, steps, cancel, expire);
    RunIsConsumerMade(cfg, one);
    RunIsConsumerMade(cfg, two);
    SuffixRespectsOrder(cfg, Run(cfg, EMPTY, one), Run(cfg, EMPTY, two), rest, r);
    RunConcat(cfg, EMPTY, one, rest);
    RunConcat(cfg, EMPTY, two, rest);
  }

  lemma RunIsConsumerMade(cfg: Config, steps: seq<Step>)
    requires ConsumerOnly(steps)
    ensures ConsumerMade(cfg, Run(cfg, EMPTY, steps))
  {
    ConsumerKeepsKeys(cfg, steps);
    RunOk(cfg, EMPTY, steps);
  }

  lemma FinalPairCommutes(cfg: Config, steps: seq<Step>, cancel: Step, expire: Step)
    requires ConsumerOnly(steps) && cancel.Deliver? && expire.Deliver?
    requires cancel.message.Cancelled? && expire.message.Expired?
    requires cancel.message.reservation == expire.message.reservation
    ensures Agree(Run(cfg, EMPTY, steps + [cancel, expire]), Run(cfg, EMPTY, steps + [expire, cancel]), cancel.message.reservation)
  {
    var r := cancel.message.reservation;
    TwoMore(cfg, steps, cancel, expire, r);
    TwoMore(cfg, steps, expire, cancel, r);
    var fee := CancelFee(cfg, cancel.message.confirmedAt, CancelTime(cancel.message.cancelledAt, cancel.now));
    FeesCommute(View(Run(cfg, EMPTY, steps), r), fee, cfg.noShow);
  }

  lemma OneMore(cfg: Config, steps: seq<Step>, step: Step, reservation: string)
    requires ConsumerOnly(steps) && step.Deliver? && Concerns(step.message, reservation)
    ensures ConsumerOnly(steps + [step])
    ensures View(Run(cfg, EMPTY, steps + [step]), reservation) ==
              HandleView(cfg, View(Run(cfg, EMPTY, steps), reservation), step.message, step.now, step.fault)
  {
    assert (steps + [step])[..|steps|] == steps;
    ConsumerKeepsKeys(cfg, steps);
    RunOk(cfg, EMPTY, steps);
    HandleActsOnView(cfg, Run(cfg, EMPTY, steps), step.message, step.now, step.fault, reservation);
  }

  lemma TwoMore(cfg: Config, steps: seq<Step>, one: Step, two: Step, reservation: string)
    requires ConsumerOnly(steps) && one.Deliver? && two.Deliver?
    requires Concerns(one.message, reservation) && Concerns(two.message, reservation)
    ensures View(Run(cfg, EMPTY, steps + [one, two]), reservation) ==
              HandleView(cfg, HandleView(cfg, View(Run(cfg, EMPTY, steps), reservation), one.message, one.now, one.fault),
                         two.message, two.now, two.fault)
  {
    OneMore(cfg, steps, one, reservation);
    OneMore(cfg, steps + [one], two, reservation);
    assert steps + [one] + [two] == steps + [one, two];
  }
}
