/** Payment requests: a gateway notification updates the status and writes an outbox row
    in one transaction. */
module Payments {
  import opened Ledger

  datatype PaymentStatus = Pending | Success | Failed | Expired

  datatype Details = Details(reservation: string, invoice: nat, amount: int)

  datatype Request = Request(details: Details, status: PaymentStatus)

  /** Payload of a billing.payment.success.v1 or billing.payment.failed.v1 row. */
  datatype PaymentEvent = PaymentEvent(ref: string, details: Details, status: PaymentStatus)

  /** Requests by payment reference, which is unique. */
  datatype Store = Store(requests: map<string, Request>, outbox: seq<PaymentEvent>)

  const NOTHING := Store(map[], [])

  datatype Notification = Notification(order: string, transaction: string, fraud: string)

  datatype Verdict = Ignore | Act(status: PaymentStatus)

  function Judge(n: Notification): Verdict {
    if n.transaction == "capture" || n.transaction == "settlement" then
      if n.fraud == "accept" || n.fraud == "" then Act(Success) else Act(Failed)
    else if n.transaction == "pending" then Ignore
    else if n.transaction in ["deny", "cancel", "expire", "failure"] then Act(Failed)
    else Ignore
  }

  /** The gateway says the money is there and the fraud screen does not object. */
  predicate Pays(n: Notification) {
    (n.transaction == "capture" || n.transaction == "settlement") && (n.fraud == "" || n.fraud == "accept")
  }

  /** The gateway gave up, or the fraud screen objects to a capture or settlement. */
  predicate Fails(n: Notification) {
    || n.transaction == "deny" || n.transaction == "cancel" || n.transaction == "expire" || n.transaction == "failure"
    || ((n.transaction == "capture" || n.transaction == "settlement") && n.fraud != "" && n.fraud != "accept")
  }

  datatype Reply = Done | Refused(error: Error)

  datatype Step =
    | Create(id: string, details: Details, fault: Fault)
    | Notify(notification: Notification, fault: Fault)
    | NotifyGarbage

  function RefOf(id: string): string {
    "PAY-" + id
  }

  function CreateTx(s: Store, id: string, d: Details, fault: Fault): Store {
    if fault.BeforeCommit? || RefOf(id) in s.requests then s
    else s.(requests := s.requests[RefOf(id) := Request(d, Pending)])
  }

  function NotifyTx(s: Store, n: Notification, fault: Fault): Store {
    if n.order == "" || fault.BeforeCommit? || n.order !in s.requests || Judge(n).Ignore? then s
    else
      var r := s.requests[n.order];
      var status := Judge(n).status;
      Store(s.requests[n.order := r.(status := status)], s.outbox + [PaymentEvent(n.order, r.details, status)])
  }

  function Do(s: Store, step: Step): Store {
    match step
    case Create(id, d, fault) => CreateTx(s, id, d, fault)
    case Notify(n, fault) => NotifyTx(s, n, fault)
    case NotifyGarbage => s
  }

  function Run(steps: seq<Step>): Store {
    if steps == [] then NOTHING else Do(Run(steps[..|steps| - 1]), steps[|steps| - 1])
  }

  /* ---------- what single steps do ---------- */

  /** The store after a verdict on one request: its status and one outbox row with the
      details it was created with. */
  function Decided(s: Store, ref: string, status: PaymentStatus): Store
    requires ref in s.requests
  {
    Store(s.requests[ref := Request(s.requests[ref].details, status)],
          s.outbox + [PaymentEvent(ref, s.requests[ref].details, status)])
  }

  /** A notification that finds its request makes it Success, makes it Failed or leaves
      the store alone, by the transaction text and the fraud text. */
  lemma NotificationDecides(s: Store, n: Notification, fault: Fault)
    requires n.order != "" && n.order in s.requests && !fault.BeforeCommit?
    ensures NotifyTx(s, n, fault) ==
              if Pays(n) then Decided(s, n.order, Success) else if Fails(n) then Decided(s, n.order, Failed) else s
    ensures !(Pays(n) && Fails(n))
  {
  }

  /** A notification without an order, of an unknown order or that fails early changes
      nothing. */
  lemma NotificationIgnored(s: Store, n: Notification, fault: Fault)
    requires n.order == "" || n.order !in s.requests || fault.BeforeCommit?
    ensures NotifyTx(s, n, fault) == s
  {
  }

  lemma RefIsInjective(a: string, b: string)
    requires RefOf(a) == RefOf(b)
    ensures a == b
  {
    assert RefOf(a)[4..] == a && RefOf(b)[4..] == b;
  }

  /** Two creations with different ids leave two pending requests, each with its own
      details, under the references PAY-id; a second creation with the same id changes
      nothing. */
  lemma CreationsDoNotCollide(s: Store, a: string, b: string, d: Details, e: Details)
    requires "PAY-" + a !in s.requests && "PAY-" + b !in s.requests
    ensures
      var t := CreateTx(CreateTx(s, a, d, Healthy), b, e, Healthy);
      if a == b then t == CreateTx(s, a, d, Healthy)
      else t.requests == s.requests["PAY-" + a := Request(d, Pending)]["PAY-" + b := Request(e, Pending)]
           && "PAY-" + a != "PAY-" + b && t.outbox == s.outbox
  {
    if a != b && RefOf(a) == RefOf(b) {
      RefIsInjective(a, b);
    }
  }

  /* ---------- the store, updated in place ---------- */

  class PaymentDesk {
    var requests: map<string, Request>
    var outbox: seq<PaymentEvent>

    ghost function Contents(): Store
      reads this
    {
      Store(requests, outbox)
    }

    constructor ()
      ensures Contents() == NOTHING
    {
      requests, outbox := map[], [];
    }

    method CreateRequest(id: string, d: Details, fault: Fault) returns (reply: Reply)
      modifies this
      ensures Contents() == CreateTx(old(Contents()), id, d, fault)
      ensures reply == if fault.BeforeCommit? then Refused(Infrastructure)
                       else if "PAY-" + id in old(requests) then Refused(Conflict) else Done
      ensures reply.Done? ==> "PAY-" + id in requests && requests["PAY-" + id] == Request(d, Pending)
    {
      if fault.BeforeCommit? {
        return Refused(Infrastructure);
      }
      var ref := "PAY-" + id;
      if ref in requests {
        return Refused(Conflict);
      }
      requests := requests[ref := Request(d, Pending)];
      return Done;
    }

    method UpdateStatusByPaymentRef(ref: string, status: PaymentStatus, evt: PaymentEvent, fault: Fault) returns (reply: Reply)
      modifies this
      ensures
        if fault.BeforeCommit? || ref !in old(requests) then Contents() == old(Contents()) && reply.Refused?
        else
          && Contents() == Store(old(requests)[ref := old(requests)[ref].(status := status)], old(outbox) + [evt])
          && reply == if fault.AfterCommit? then Refused(Infrastructure) else Done
    {
      if fault.BeforeCommit? {
        return Refused(Infrastructure);
      }
      if ref !in requests {
        return Refused(NotFound);
      }
      requests := requests[ref := requests[ref].(status := status)];
      outbox := outbox + [evt];
      return if fault.AfterCommit? then Refused(Infrastructure) else Done;
    }

    method HandlePaymentNotification(n: Notification, fault: Fault) returns (reply: Reply)
      modifies this
      ensures Contents() == NotifyTx(old(Contents()), n, fault)
      ensures reply == if n.order == "" then Refused(Validation)
                       else if fault.BeforeCommit? then Refused(Infrastructure)
                       else if n.order !in old(requests) then Refused(NotFound)
                       else if fault.AfterCommit? && (Pays(n) || Fails(n)) then Refused(Infrastructure)
                       else Done
    {
      if n.order == "" {
        return Refused(Validation);
      }
      if fault.BeforeCommit? {
        return Refused(Infrastructure);
      }
      if n.order !in requests {
        return Refused(NotFound);
      }
      var d := requests[n.order].details;
      var newStatus;
      match n.transaction {
        case "capture" => newStatus := if n.fraud == "accept" || n.fraud == "" then Success else Failed;
        case "settlement" => newStatus := if n.fraud == "accept" || n.fraud == "" then Success else Failed;
        case "pending" => return Done;
        case "deny" => newStatus := Failed;
        case "cancel" => newStatus := Failed;
        case "expire" => newStatus := Failed;
        case "failure" => newStatus := Failed;
        case _ => return Done;
      }
      reply := UpdateStatusByPaymentRef(n.order, newStatus, PaymentEvent(n.order, d, newStatus), fault);
    }
  }

  /* ---------- what a run means for one request ---------- */

  /** A request's life, read off the run alone: its creation, then the verdicts of the
      notifications that name it. */
  datatype History = Absent | Present(details: Details, verdicts: seq<PaymentStatus>)

  function HistoryOf(steps: seq<Step>, ref: string): History {
    if steps == [] then Absent
    else
      var h := HistoryOf(steps[..|steps| - 1], ref);
      match steps[|steps| - 1]
      case Create(id, d, fault) =>
        if h.Absent? && RefOf(id) == ref && !fault.BeforeCommit? then Present(d, []) else h
      case Notify(n, fault) =>
        if h.Present? && n.order == ref && n.order != "" && !fault.BeforeCommit? && Judge(n).Act?
        then h.(verdicts := h.verdicts + [Judge(n).status]) else h
      case NotifyGarbage => h
  }

  function LastOr(verdicts: seq<PaymentStatus>, initial: PaymentStatus): PaymentStatus {
    if verdicts == [] then initial else verdicts[|verdicts| - 1]
  }

  /** The events of one request, in outbox order. */
  function EventsOf(outbox: seq<PaymentEvent>, ref: string): seq<PaymentEvent> {
    if outbox == [] then []
    else
      var init, last := EventsOf(outbox[..|outbox| - 1], ref), outbox[|outbox| - 1];
      if last.ref == ref then init + [last] else init
  }

  function Rows(ref: string, d: Details, verdicts: seq<PaymentStatus>): seq<PaymentEvent> {
    seq(|verdicts|, i requires 0 <= i < |verdicts| => PaymentEvent(ref, d, verdicts[i]))
  }

  lemma EventsSnoc(outbox: seq<PaymentEvent>, e: PaymentEvent, ref: string)
    ensures EventsOf(outbox + [e], ref) == if e.ref == ref then EventsOf(outbox, ref) + [e] else EventsOf(outbox, ref)
  {
    assert (outbox + [e])[..|outbox|] == outbox;
  }

  /** After any run a request exists exactly if it was created; its reservation, invoice
      and amount are those it was created with; its status is the last verdict, or
      PENDING; and its outbox rows are its verdicts, one each, in order. */
  lemma {:induction false} PaymentFold(steps: seq<Step>, ref: string)
    ensures
      var s := Run(steps);
      match HistoryOf(steps, ref)
      case Absent => ref !in s.requests && EventsOf(s.outbox, ref) == []
      case Present(d, verdicts) =>
        && ref in s.requests
        && s.requests[ref] == Request(d, LastOr(verdicts, Pending))
        && EventsOf(s.outbox, ref) == Rows(ref, d, verdicts)
  {
    if steps != [] {
      var init, last := steps[..|steps| - 1], steps[|steps| - 1];
      PaymentFold(init, ref);
      var s := Run(init);
      if last.Notify? && NotifyTx(s, last.notification, last.fault) != s {
        var n := last.notification;
        EventsSnoc(s.outbox, PaymentEvent(n.order, s.requests[n.order].details, Judge(n).status), ref);
      }
    }
  }

  /** A request's status always matches its most recent outbox row. */
  lemma StatusMatchesLatestRow(steps: seq<Step>, ref: string)
    requires ref in Run(steps).requests && EventsOf(Run(steps).outbox, ref) != []
    ensures
      var rows := EventsOf(Run(steps).outbox, ref);
      rows[|rows| - 1].status == Run(steps).requests[ref].status
  {
    PaymentFold(steps, ref);
  }

  /** The update has no terminal-state guard: a later failure overwrites a success. */
  lemma SuccessIsNotFinal(id: string, d: Details)
    ensures
      var ref := RefOf(id);
      var paid := Do(Do(NOTHING, Create(id, d, Healthy)), Notify(Notification(ref, "settlement", ""), Healthy));
      var lapsed := Do(paid, Notify(Notification(ref, "expire", ""), Healthy));
      && paid.requests[ref].status == Success
      && lapsed.requests[ref].status == Failed
      && |lapsed.outbox| == 2
  {
  }

  /** Verdicts on one request in a stretch of a run, read off the stretch alone. */
  function VerdictsIn(steps: seq<Step>, ref: string): seq<PaymentStatus> {
    if steps == [] then []
    else
      var init, last := VerdictsIn(steps[..|steps| - 1], ref), steps[|steps| - 1];
      if last.Notify? && last.notification.order == ref && ref != "" && !last.fault.BeforeCommit? && Judge(last.notification).Act?
      then init + [Judge(last.notification).status] else init
  }

  /** From any point on, a request's status is the last later verdict, or what it was:
      a success stands exactly if the last later verdict, if any, is a success. */
  lemma {:induction false} StatusFollowsLaterVerdicts(before: seq<Step>, after: seq<Step>, ref: string)
    requires ref in Run(before).requests
    ensures ref in Run(before + after).requests
    ensures Run(before + after).requests[ref].details == Run(before).requests[ref].details
    ensures Run(before + after).requests[ref].status == LastOr(VerdictsIn(after, ref), Run(before).requests[ref].status)
  {
    if after == [] {
      assert before + after == before;
    } else {
      assert (before + after)[..|before + after| - 1] == before + after[..|after| - 1];
      StatusFollowsLaterVerdicts(before, after[..|after| - 1], ref);
    }
  }
}
