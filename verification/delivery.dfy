/** Serial runs: deliveries from the broker, in any order and any number of times, mixed
    with calls from the gRPC handlers. */
module Delivery {
  import opened Pricing
  import opened Accounts
  import opened Ledger
  import opened Billing
  import opened Interleaving

  datatype Step =
    | Deliver(message: Message, now: Instant, fault: Fault)
    | GrpcOpen(reservation: string, driver: string, key: string, fault: Fault)
    | GrpcClose(invoice: nat, session: Session, now: Instant, fault: Fault)

  function Do(cfg: Config, db: Tables, step: Step): Tables {
    match step
    case Deliver(m, now, fault) => Handle(cfg, db, m, now, fault).db
    case GrpcOpen(reservation, driver, key, fault) => OpenInvoice(cfg, db, reservation, driver, key, fault).db
    case GrpcClose(id, session, now, fault) => CloseInvoice(cfg, db, id, session, now, fault).db
  }

  function Run(cfg: Config, db: Tables, steps: seq<Step>): Tables {
    if steps == [] then db
    else Do(cfg, Run(cfg, db, steps[..|steps| - 1]), steps[|steps| - 1])
  }

  lemma {:induction false} RunConcat(cfg: Config, db: Tables, first: seq<Step>, second: seq<Step>)
    ensures Run(cfg, db, first + second) == Run(cfg, Run(cfg, db, first), second)
  {
    if second == [] {
      assert first + second == first;
    } else {
      assert (first + second)[..|first + second| - 1] == first + second[..|second| - 1];
      RunConcat(cfg, db, first, second[..|second| - 1]);
    }
  }

  /* ---------- serial runs are interleavings ---------- */

  function ActionsOf(step: Step): seq<Action> {
    match step
    case GrpcOpen(reservation, driver, key, fault) => [OpenNow(reservation, driver, key, fault)]
    case GrpcClose(id, session, now, fault) => [CloseNow(id, session, now, fault)]
    case Deliver(m, now, fault) =>
      match m
      case Created(reservation, driver) => [OpenNow(reservation, driver, reservation, fault)]
      case Cancelled(reservation, confirmedAt, cancelledAt) =>
        if fault.BeforeCommit? then []
        else [ReadForCancel(reservation, confirmedAt, CancelTime(cancelledAt, now)), Finish(0, now, fault)]
      case Expired(reservation) =>
        if fault.BeforeCommit? then [] else [ReadForNoShow(reservation), Finish(0, now, fault)]
      case CheckedOut(reservation, confirmedAt, checkedInAt, checkedOutAt) =>
        if fault.BeforeCommit? then []
        else [ReadForCheckout(reservation, confirmedAt, checkedInAt, checkedOutAt), Finish(0, now, fault)]
      case Undecodable => []
      case Unrouted => []
  }

  lemma ExecShort(cfg: Config, w: World, actions: seq<Action>)
    ensures |actions| == 1 ==> Exec(cfg, w, actions) == Next(cfg, w, actions[0])
    ensures |actions| == 2 ==> Exec(cfg, w, actions) == Next(cfg, Next(cfg, w, actions[0]), actions[1])
  {
    if |actions| == 1 {
      assert actions[..0] == [];
    } else if |actions| == 2 {
      assert actions[..1] == [actions[0]] && actions[..1][..0] == [];
    }
  }

  /** A fee handler run back to back is its read followed at once by its commit. */
  lemma FeeIsInterleaving(cfg: Config, db: Tables, reservation: string, kind: LineKind, amount: int, now: Instant, fault: Fault)
    requires !fault.BeforeCommit?
    ensures Next(cfg, World(db, [] + ReadOpen(db, reservation, kind, amount)), Finish(0, now, fault))
         == World(ApplyFee(db, reservation, kind, amount, false, fault).db, [])
  {
  }

  lemma DeliveryIsInterleaving(cfg: Config, db: Tables, m: Message, now: Instant, fault: Fault)
    requires !fault.BeforeCommit? && (m.Cancelled? || m.Expired? || m.CheckedOut?)
    ensures
      var actions := ActionsOf(Deliver(m, now, fault));
      && |actions| == 2
      && Next(cfg, Next(cfg, World(db, []), actions[0]), actions[1]) == World(Handle(cfg, db, m, now, fault).db, [])
  {
    if m.Cancelled? {
      var fee := CancelFee(cfg, m.confirmedAt, CancelTime(m.cancelledAt, now));
      FeeIsInterleaving(cfg, db, m.reservation, Cancellation, fee, now, fault);
    } else if m.Expired? {
      FeeIsInterleaving(cfg, db, m.reservation, NoShow, cfg.noShow, now, fault);
    }
  }

  lemma StepIsInterleaving(cfg: Config, db: Tables, step: Step)
    ensures Exec(cfg, World(db, []), ActionsOf(step)) == World(Do(cfg, db, step), [])
  {
    ExecShort(cfg, World(db, []), ActionsOf(step));
    if step.Deliver? && !step.fault.BeforeCommit?
       && (step.message.Cancelled? || step.message.Expired? || step.message.CheckedOut?)
    {
      DeliveryIsInterleaving(cfg, db, step.message, step.now, step.fault);
    }
  }

  /** Whatever a serial run reaches, an interleaved run reaches with no handler waiting. */
  lemma {:induction false} RunIsInterleaving(cfg: Config, db: Tables, steps: seq<Step>) returns (actions: seq<Action>)
    ensures Exec(cfg, World(db, []), actions) == World(Run(cfg, db, steps), [])
  {
    if steps == [] {
      actions := [];
    } else {
      var init, last := steps[..|steps| - 1], steps[|steps| - 1];
      var before := RunIsInterleaving(cfg, db, init);
      StepIsInterleaving(cfg, Run(cfg, db, init), last);
      ExecConcat(cfg, World(db, []), before, ActionsOf(last));
      actions := before + ActionsOf(last);
    }
  }

  lemma RunOk(cfg: Config, db: Tables, steps: seq<Step>)
    requires LedgerOk(cfg, db)
    ensures LedgerOk(cfg, Run(cfg, db, steps)) && Grows(db, Run(cfg, db, steps))
  {
    var actions := RunIsInterleaving(cfg, db, steps);
    ExecSound(cfg, World(db, []), actions);
  }

  /** A ledger in order stays in order and only grows. */
  ghost predicate Keeps(cfg: Config, db: Tables, db': Tables) {
    LedgerOk(cfg, db) ==> LedgerOk(cfg, db') && Grows(db, db')
  }

  lemma StepKeeps(cfg: Config, db: Tables, step: Step)
    ensures Keeps(cfg, db, Do(cfg, db, step))
  {
    if LedgerOk(cfg, db) {
      StepIsInterleaving(cfg, db, step);
      ExecSound(cfg, World(db, []), ActionsOf(step));
    }
  }

  lemma OpenKeeps(cfg: Config, db: Tables, reservation: string, driver: string, key: string, fault: Fault)
    ensures Keeps(cfg, db, OpenInvoice(cfg, db, reservation, driver, key, fault).db)
  {
    StepKeeps(cfg, db, GrpcOpen(reservation, driver, key, fault));
  }

  lemma CloseKeeps(cfg: Config, db: Tables, id: nat, s: Session, now: Instant, fault: Fault)
    ensures Keeps(cfg, db, CloseInvoice(cfg, db, id, s, now, fault).db)
  {
    StepKeeps(cfg, db, GrpcClose(id, s, now, fault));
  }

  lemma HandleKeeps(cfg: Config, db: Tables, m: Message, now: Instant, fault: Fault)
    ensures Keeps(cfg, db, Handle(cfg, db, m, now, fault).db)
  {
    StepKeeps(cfg, db, Deliver(m, now, fault));
  }

  /** In a serial run a closed invoice never changes again, in any respect. */
  lemma ClosedIsFrozen(cfg: Config, db: Tables, steps: seq<Step>, id: nat)
    requires LedgerOk(cfg, db) && IsClosed(db, id)
    ensures IsClosed(Run(cfg, db, steps), id)
    ensures AccountOf(Run(cfg, db, steps), id) == AccountOf(db, id)
  {
    var actions := RunIsInterleaving(cfg, db, steps);
    FrozenWithoutWaitingFees(cfg, World(db, []), actions, id);
  }

  /* ---------- when a redelivery is harmless ---------- */

  /** A cancellation that costs nothing whenever it is handled. */
  predicate AlwaysFree(cfg: Config, confirmedAt: Instant, cancelledAt: Instant) {
    if cancelledAt == ZERO_TIME then cfg.cancel == 0 || cfg.grace >= MAX_DURATION
    else CancelFee(cfg, confirmedAt, cancelledAt) == 0
  }

  predicate OpenWithout(db: Tables, reservation: string, kind: LineKind) {
    match FindInvoice(db, reservation)
    case Found(id) => db.invoices[id].status == Open && !HasKind(Of(db.lines, id), kind)
    case Missing => true
    case Rejected => false
  }

  /** The ledger already reflects the message, or never will. */
  predicate Settled(cfg: Config, db: Tables, m: Message) {
    match m
    case Created(reservation, _) =>
      || !ValidUuid(reservation)
      || ByReservation(db.invoices, reservation).Some?
      || ByKey(db.invoices, reservation).Some?
    case Cancelled(reservation, confirmedAt, cancelledAt) =>
      AlwaysFree(cfg, confirmedAt, cancelledAt) || !OpenWithout(db, reservation, Cancellation)
    case Expired(reservation) => !OpenWithout(db, reservation, NoShow)
    case CheckedOut(reservation, _, _, _) =>
      (match FindInvoice(db, reservation)
       case Found(id) => db.invoices[id].status != Open
       case Missing => false
       case Rejected => true)
    case Undecodable => true
    case Unrouted => true
  }

  lemma SettledIsNoOp(cfg: Config, db: Tables, m: Message, now: Instant, fault: Fault)
    requires Settled(cfg, db, m)
    ensures Handle(cfg, db, m, now, fault).db == db
  {
  }

  lemma SettledLasts(cfg: Config, db: Tables, db': Tables, m: Message)
    requires LedgerOk(cfg, db) && LedgerOk(cfg, db') && Grows(db, db') && Settled(cfg, db, m)
    ensures Settled(cfg, db', m)
  {
    if m.Created? && ByKey(db.invoices, m.reservation).Some? {
      var id := ByKey(db.invoices, m.reservation).value;
      assert Continues(AccountOf(db, id), AccountOf(db', id));
      ReservationFindsInvoice(db', id);
    }
    if !m.Undecodable? && !m.Unrouted? && ByReservation(db.invoices, m.reservation).Some? {
      var id := ByReservation(db.invoices, m.reservation).value;
      var a, b := AccountOf(db, id), AccountOf(db', id);
      assert AccountOk(cfg, a) && Continues(a, b);
      ReservationFindsInvoice(db', id);
      PrefixKeepsKinds(a.lines, b.lines, Cancellation);
      PrefixKeepsKinds(a.lines, b.lines, NoShow);
    }
  }

  lemma PrefixKeepsKinds(a: seq<Line>, b: seq<Line>, k: LineKind)
    requires a <= b
    ensures HasKind(a, k) ==> HasKind(b, k)
  {
    if HasKind(a, k) {
      var i :| 0 <= i < |a| && a[i].kind == k;
      assert b[i].kind == k;
    }
  }

  /** The message names a reservation that has an invoice, or none at all. */
  predicate Known(db: Tables, m: Message) {
    m.Undecodable? || m.Unrouted? || FindInvoice(db, m.reservation).Found?
  }

  /** The payload carries its own cancellation time. */
  predicate Stamped(m: Message) {
    m.Cancelled? ==> m.cancelledAt != ZERO_TIME
  }

  /** After a healthy fee handler the invoice is not open, or carries the fee. */
  lemma FeeIsSettled(cfg: Config, db: Tables, reservation: string, kind: LineKind, amount: int, id: nat)
    requires LedgerOk(cfg, db) && FeeOk(cfg, kind, amount) && FindInvoice(db, reservation) == Found(id)
    ensures
      var db' := ApplyFee(db, reservation, kind, amount, false, Healthy).db;
      && FindInvoice(db', reservation) == Found(id)
      && !OpenWithout(db', reservation, kind)
  {
    var db' := ApplyFee(db, reservation, kind, amount, false, Healthy).db;
    FeeSound(cfg, db, id, kind, amount, Healthy);
    AppendActsOnOneAccount(db, id, Line(kind, amount), FeeAdded(kind, amount), Healthy);
    assert Continues(AccountOf(db, id), AccountOf(db', id));
    ReservationFindsInvoice(db', id);
    if db.invoices[id].status == Open && !HasKind(Of(db.lines, id), kind) {
      assert Of(db'.lines, id) == Of(db.lines, id) + [Line(kind, amount)];
      LastHasKind(Of(db.lines, id), Line(kind, amount));
    }
  }

  lemma LastHasKind(lines: seq<Line>, l: Line)
    ensures HasKind(lines + [l], l.kind)
  {
    assert (lines + [l])[|lines|] == l;
  }

  /** After a healthy check-out the invoice is not open. */
  lemma CheckoutIsSettled(cfg: Config, db: Tables, id: nat, m: Message, now: Instant)
    requires LedgerOk(cfg, db) && m.CheckedOut? && FindInvoice(db, m.reservation) == Found(id)
    ensures Settled(cfg, Handle(cfg, db, m, now, Healthy).db, m)
  {
    var db' := Handle(cfg, db, m, now, Healthy).db;
    CheckoutCloses(cfg, db, id, m, now, Healthy);
    CloseSound(cfg, db, id, PlainSession(m.confirmedAt, m.checkedInAt, m.checkedOutAt), now, Healthy);
    assert Continues(AccountOf(db, id), AccountOf(db', id));
    ReservationFindsInvoice(db', id);
  }

  /** A failure before the commit changes nothing; one after it changes what a healthy
      attempt changes. */
  lemma FaultEffect(cfg: Config, db: Tables, m: Message, now: Instant)
    ensures Handle(cfg, db, m, now, BeforeCommit).db == db
    ensures Handle(cfg, db, m, now, AfterCommit).db == Handle(cfg, db, m, now, Healthy).db
  {
  }

  /** A message that was handled as far as its commit while its invoice existed is
      settled, whatever reply it got. */
  lemma HandledIsSettled(cfg: Config, db: Tables, m: Message, now: Instant, fault: Fault)
    requires LedgerOk(cfg, db) && Stamped(m) && !fault.BeforeCommit?
    requires Known(Handle(cfg, db, m, now, fault).db, m)
    ensures Settled(cfg, Handle(cfg, db, m, now, fault).db, m)
  {
    FaultEffect(cfg, db, m, now);
    if (m.Cancelled? || m.Expired? || m.CheckedOut?) && FindInvoice(db, m.reservation).Found? {
      var id := FindInvoice(db, m.reservation).invoice;
      if m.CheckedOut? {
        CheckoutIsSettled(cfg, db, id, m, now);
      } else if m.Expired? {
        FeeIsSettled(cfg, db, m.reservation, NoShow, cfg.noShow, id);
      } else if CancelFee(cfg, m.confirmedAt, m.cancelledAt) != 0 {
        FeeIsSettled(cfg, db, m.reservation, Cancellation, cfg.cancel, id);
      }
    }
  }

  lemma CheckoutCloses(cfg: Config, db: Tables, id: nat, m: Message, now: Instant, fault: Fault)
    requires LedgerOk(cfg, db) && m.CheckedOut? && FindInvoice(db, m.reservation) == Found(id)
    requires !fault.BeforeCommit?
    ensures IsClosed(Handle(cfg, db, m, now, fault).db, id)
    ensures Handle(cfg, db, m, now, fault).reply == if fault.Healthy? then Ack else Nack
  {
    var s := PlainSession(m.confirmedAt, m.checkedInAt, m.checkedOutAt);
    assert AccountOk(cfg, AccountOf(db, id));
    CloseActsOnOneAccount(db, id, DropFreeCancellation(Quote(cfg, s)), ClosedWith(Quote(cfg, s)), now, fault);
    ClosingInsertsOneLine(cfg, AccountOf(db, id).lines, s);
    ClosingLineOk(cfg, s);
  }

  /* ---------- the duplicate-delivery theorem ---------- */

  /** Step `i` redelivers a message that step `j` handled as far as its commit while its
      invoice existed, even if step `j` then failed in its last read and was refused. */
  ghost predicate Repeats(cfg: Config, steps: seq<Step>, j: nat, i: nat)
    requires j < i < |steps|
  {
    && steps[i].Deliver? && steps[j].Deliver?
    && steps[j].message == steps[i].message && Stamped(steps[i].message)
    && !steps[j].fault.BeforeCommit?
    && Known(Run(cfg, EMPTY, steps[..j + 1]), steps[i].message)
  }

  /** Step `i` failed before its commit, or repeats an earlier delivery. */
  ghost predicate Redundant(cfg: Config, steps: seq<Step>, i: nat)
    requires i < |steps|
  {
    steps[i].fault.BeforeCommit? || exists j: nat | j < i :: Repeats(cfg, steps, j, i)
  }

  /** The run without its redundant steps. */
  ghost function Prune(cfg: Config, steps: seq<Step>): seq<Step> {
    if steps == [] then []
    else
      var init := Prune(cfg, steps[..|steps| - 1]);
      if Redundant(cfg, steps, |steps| - 1) then init else init + [steps[|steps| - 1]]
  }

  lemma EarlyFailure(cfg: Config, db: Tables, step: Step)
    requires step.fault.BeforeCommit?
    ensures Do(cfg, db, step) == db
  {
    if step.Deliver? {
      FaultEffect(cfg, db, step.message, step.now);
    }
  }

  lemma RedundantIsNoOp(cfg: Config, steps: seq<Step>, i: nat)
    requires i < |steps| && Redundant(cfg, steps, i)
    ensures Do(cfg, Run(cfg, EMPTY, steps[..i]), steps[i]) == Run(cfg, EMPTY, steps[..i])
  {
    if steps[i].fault.BeforeCommit? {
      EarlyFailure(cfg, Run(cfg, EMPTY, steps[..i]), steps[i]);
      return;
    }
    var j: nat :| j < i && Repeats(cfg, steps, j, i);
    RepeatIsSettled(cfg, steps, j, i);
    SettledIsNoOp(cfg, Run(cfg, EMPTY, steps[..i]), steps[i].message, steps[i].now, steps[i].fault);
  }

  lemma RepeatIsSettled(cfg: Config, steps: seq<Step>, j: nat, i: nat)
    requires j < i < |steps| && Repeats(cfg, steps, j, i)
    ensures Settled(cfg, Run(cfg, EMPTY, steps[..i]), steps[i].message)
  {
    var m := steps[i].message;
    var before, after := Run(cfg, EMPTY, steps[..j]), Run(cfg, EMPTY, steps[..j + 1]);
    assert steps[..j + 1][..j] == steps[..j];
    RunOk(cfg, EMPTY, steps[..j]);
    RunOk(cfg, EMPTY, steps[..j + 1]);
    HandledIsSettled(cfg, before, m, steps[j].now, steps[j].fault);
    assert steps[..i] == steps[..j + 1] + steps[j + 1..i];
    RunConcat(cfg, EMPTY, steps[..j + 1], steps[j + 1..i]);
    RunOk(cfg, after, steps[j + 1..i]);
    SettledLasts(cfg, after, Run(cfg, EMPTY, steps[..i]), m);
  }

  /** Deleting every failed attempt and every redundant redelivery from a run leaves
      invoices, lines, totals and outbox rows identical. */
  lemma {:induction false} DuplicateDelivery(cfg: Config, steps: seq<Step>)
    ensures Run(cfg, EMPTY, Prune(cfg, steps)) == Run(cfg, EMPTY, steps)
  {
    if steps != [] {
      var init, last := steps[..|steps| - 1], steps[|steps| - 1];
      DuplicateDelivery(cfg, init);
      if Redundant(cfg, steps, |steps| - 1) {
        RedundantIsNoOp(cfg, steps, |steps| - 1);
      } else {
        assert (Prune(cfg, init) + [last])[..|Prune(cfg, init)|] == Prune(cfg, init);
      }
    }
  }
}
