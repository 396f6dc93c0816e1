/** The billing use cases, the reservation consumer and the broker subscription, driving
    the repository. */
module Usecase {
  import opened Pricing
  import opened Accounts
  import opened Ledger
  import opened Billing
  import opened Interleaving
  import opened Delivery
  import opened Events
  import opened Acknowledgement
  import opened Repository

  /** One configuration serves both the engine and the fee handlers. */
  class BillingUsecase {
    const cfg: Config
    const engine: Engine
    const repo: InvoiceRepository

    ghost predicate Wired() {
      engine.cfg == cfg && engine.rules == DEFAULT_RULES
    }

    constructor (cfg: Config, engine: Engine, repo: InvoiceRepository)
      requires engine.cfg == cfg && engine.rules == DEFAULT_RULES
      ensures this.cfg == cfg && this.engine == engine && this.repo == repo && Wired()
    {
      this.cfg, this.engine, this.repo := cfg, engine, repo;
    }

    method OpenInvoice(reservation: string, driver: string, key: string, fault: Fault) returns (outcome: Outcome)
      modifies repo
      ensures Result(repo.Contents(), outcome)
           == Billing.OpenInvoice(cfg, old(repo.Contents()), reservation, driver, key, fault)
      ensures Keeps(cfg, old(repo.Contents()), repo.Contents())
      ensures outcome.Ok? ==> outcome.invoice < |repo.invoices| && repo.invoices[outcome.invoice].key == key
    {
      OpenKeeps(cfg, repo.Contents(), reservation, driver, key, fault);
      if Blank(reservation) || Blank(key) {
        return Fail(Validation);
      }
      outcome := repo.Open(reservation, driver, key, cfg.booking, Opened(cfg.booking), fault);
    }

    method CloseInvoice(id: nat, s: Session, now: Instant, fault: Fault) returns (outcome: Outcome)
      requires Wired()
      modifies repo
      ensures Result(repo.Contents(), outcome) == Billing.CloseInvoice(cfg, old(repo.Contents()), id, s, now, fault)
      ensures Keeps(cfg, old(repo.Contents()), repo.Contents())
      ensures outcome.Ok? ==> outcome.invoice == id < |repo.invoices| && repo.invoices[id].status != Status.Open
    {
      CloseKeeps(cfg, repo.Contents(), id, s, now, fault);
      var rawLines := engine.Apply(s);
      var dbLines: seq<Line> := [];
      for i := 0 to |rawLines|
        invariant repo.Contents() == old(repo.Contents())
        invariant dbLines + DropFreeCancellation(rawLines[i..]) == DropFreeCancellation(rawLines)
      {
        assert rawLines[i..][0] == rawLines[i] && rawLines[i..][1..] == rawLines[i + 1..];
        if !(rawLines[i].kind == Cancellation && rawLines[i].amount == 0) {
          dbLines := dbLines + [rawLines[i]];
        }
      }
      assert dbLines == DropFreeCancellation(rawLines);
      outcome := repo.Close(id, dbLines, ClosedWith(rawLines), now, fault);
    }

    method ApplyCancelFee(reservation: string, confirmedAt: Instant, cancelledAt: Instant, fault: Fault)
      returns (reply: Reply)
      requires Wired()
      modifies repo
      ensures Handled(repo.Contents(), reply)
           == Billing.ApplyCancelFee(cfg, old(repo.Contents()), reservation, confirmedAt, cancelledAt, fault)
      ensures Keeps(cfg, old(repo.Contents()), repo.Contents())
    {
      HandleKeeps(cfg, repo.Contents(), Cancelled(reservation, confirmedAt, cancelledAt), cancelledAt, fault);
      if fault.BeforeCommit? {
        return Nack;
      }
      var found := repo.GetByReservation(reservation);
      if found.Rejected? {
        return Nack;
      }
      if found.Missing? || repo.invoices[found.invoice].status != Status.Open {
        return Ack;
      }
      var quote := engine.Apply(CancelSession(confirmedAt, cancelledAt));
      CancelQuote(cfg, confirmedAt, cancelledAt);
      reply := Ack;
      for i := 0 to |quote|
        invariant i == 0 ==> repo.Contents() == old(repo.Contents()) && reply == Ack
        invariant i == 1 ==> Handled(repo.Contents(), reply)
                             == Billing.ApplyCancelFee(cfg, old(repo.Contents()), reservation, confirmedAt, cancelledAt, fault)
      {
        var l := quote[i];
        if l.kind == Cancellation && l.amount != 0 {
          var outcome := repo.AppendLine(found.invoice, Line(Cancellation, l.amount), FeeAdded(Cancellation, l.amount), fault);
          if outcome.Fail? {
            return Nack;
          }
        }
      }
    }

    method ApplyNoShowFee(reservation: string, fault: Fault) returns (reply: Reply)
      modifies repo
      ensures Handled(repo.Contents(), reply) == Billing.ApplyNoShowFee(cfg, old(repo.Contents()), reservation, fault)
      ensures Keeps(cfg, old(repo.Contents()), repo.Contents())
    {
      HandleKeeps(cfg, repo.Contents(), Expired(reservation), 0, fault);
      if fault.BeforeCommit? {
        return Nack;
      }
      var found := repo.GetByReservation(reservation);
      if found.Rejected? {
        return Nack;
      }
      if found.Missing? || repo.invoices[found.invoice].status != Status.Open {
        return Ack;
      }
      var outcome := repo.AppendLine(found.invoice, Line(NoShow, cfg.noShow), FeeAdded(NoShow, cfg.noShow), fault);
      return if outcome.Fail? then Nack else Ack;
    }
  }

  class ReservationConsumer {
    const uc: BillingUsecase

    constructor (uc: BillingUsecase)
      ensures this.uc == uc
    {
      this.uc := uc;
    }

    method Handle(m: Message, now: Instant, fault: Fault) returns (reply: Reply)
      requires uc.Wired()
      modifies uc.repo
      ensures Handled(uc.repo.Contents(), reply) == Billing.Handle(uc.cfg, old(uc.repo.Contents()), m, now, fault)
      ensures Keeps(uc.cfg, old(uc.repo.Contents()), uc.repo.Contents())
    {
      HandleKeeps(uc.cfg, uc.repo.Contents(), m, now, fault);
      match m
      case Created(reservation, driver) =>
        if reservation == "" {
          return Ack;
        }
        var outcome := uc.OpenInvoice(reservation, driver, reservation, fault);
        return if outcome.Fail? then Nack else Ack;
      case Cancelled(reservation, confirmedAt, cancelledAt) =>
        var at := cancelledAt;
        if at == ZERO_TIME {
          at := now;
        }
        reply := uc.ApplyCancelFee(reservation, confirmedAt, at, fault);
      case Expired(reservation) =>
        reply := uc.ApplyNoShowFee(reservation, fault);
      case CheckedOut(reservation, confirmedAt, checkedInAt, checkedOutAt) =>
        if fault.BeforeCommit? {
          return Nack;
        }
        var found := uc.repo.GetByReservation(reservation);
        if !found.Found? {
          return Nack;
        }
        var outcome := uc.CloseInvoice(found.invoice, PlainSession(confirmedAt, checkedInAt, checkedOutAt), now, fault);
        return if outcome.Fail? then Nack else Ack;
      case Undecodable => return Ack;
      case Unrouted => return Ack;
    }
  }

  /** One turn of the consume loop: which queued message the broker hands over, when, how
      the infrastructure behaves, and whether the acknowledgement gets lost on the way. */
  datatype Turn = Turn(pick: nat, now: Instant, fault: Fault, ackLost: bool)

  /** Message `k` of `acked` was answered with an acknowledgement at step `at[k]`. */
  ghost predicate Answered(cfg: Config, trace: seq<Step>, acked: seq<Message>, at: seq<nat>) {
    && |at| == |acked|
    && forall k :: 0 <= k < |at| ==>
         && at[k] < |trace| && trace[at[k]].Deliver? && trace[at[k]].message == acked[k]
         && ReplyAt(cfg, trace, at[k]) == Ack
  }

  lemma AnsweredGrows(cfg: Config, trace: seq<Step>, step: Step, acked: seq<Message>, at: seq<nat>)
    requires Answered(cfg, trace, acked, at) && step.Deliver?
    ensures Answered(cfg, trace + [step], acked, at)
    ensures ReplyAt(cfg, trace + [step], |trace|) == Ack ==>
              Answered(cfg, trace + [step], acked + [step.message], at + [|trace|])
  {
    forall k | 0 <= k < |at|
      ensures ReplyAt(cfg, trace + [step], at[k]) == Ack
    {
      assert (trace + [step])[..at[k]] == trace[..at[k]];
    }
  }

  lemma TakeOut(queue: seq<Message>, p: nat)
    requires p < |queue|
    ensures multiset(queue) == multiset(queue[..p] + queue[p + 1..]) + multiset{queue[p]}
    ensures multiset(queue) == multiset(queue[..p] + queue[p + 1..] + [queue[p]])
  {
    assert queue == queue[..p] + [queue[p]] + queue[p + 1..];
  }

  /** The trace delivers queued messages, one for each turn of the script it got to. */
  ghost predicate Follows(trace: seq<Step>, script: seq<Turn>, queue: seq<Message>) {
    && |trace| <= |script|
    && forall k :: 0 <= k < |trace| ==>
         && trace[k].Deliver? && trace[k].message in queue
         && trace[k].now == script[k].now && trace[k].fault == script[k].fault
  }

  lemma FollowsGrows(trace: seq<Step>, script: seq<Turn>, queue: seq<Message>, left: seq<Message>, gone: seq<Message>, m: Message)
    requires Follows(trace, script, queue) && |trace| < |script|
    requires multiset(left) + multiset(gone) == multiset(queue) && m in left
    ensures Follows(trace + [Deliver(m, script[|trace|].now, script[|trace|].fault)], script, queue)
  {
    assert m in multiset(left) && m in multiset(queue);
  }

  /** What the message acknowledged at step `i` has left behind at the end of the trace. */
  ghost predicate Honoured(cfg: Config, trace: seq<Step>, i: nat)
    requires i < |trace| && trace[i].Deliver?
  {
    var m, before, db := trace[i].message, Run(cfg, EMPTY, trace[..i]), Run(cfg, EMPTY, trace);
    match m
    case Created(reservation, _) => reservation == "" || ByReservation(db.invoices, reservation).Some?
    case CheckedOut(reservation, _, _, _) =>
      var found := ByReservation(db.invoices, reservation);
      found.Some? && IsClosed(db, found.value)
    case Cancelled(_, _, _) => FeeHonoured(cfg, before, db, m, trace[i].now)
    case Expired(_) => FeeHonoured(cfg, before, db, m, trace[i].now)
    case Undecodable => true
    case Unrouted => true
  }

  /** An invoice that was open when a fee was due carries its line. */
  ghost predicate FeeHonoured(cfg: Config, before: Tables, db: Tables, m: Message, now: Instant)
    requires m.Cancelled? || m.Expired?
  {
    forall id: nat :: Bills(before, id, m.reservation) && before.invoices[id].status == Open && Charged(cfg, m, now) ==>
      id < |db.invoices| && FeeLine(cfg, m) in AccountOf(db, id).lines
  }

  lemma AckedIsHonoured(cfg: Config, trace: seq<Step>, i: nat)
    requires ConsumerOnly(trace) && i < |trace| && ReplyAt(cfg, trace, i) == Ack
    ensures Honoured(cfg, trace, i)
  {
    var m, before := trace[i].message, Run(cfg, EMPTY, trace[..i]);
    if m.Created? && m.reservation != "" {
      AckedCreatedLasts(cfg, trace, i);
    } else if m.CheckedOut? {
      AckedCheckoutLasts(cfg, trace, i);
    } else if m.Cancelled? || m.Expired? {
      forall id: nat | Bills(before, id, m.reservation) && before.invoices[id].status == Open && Charged(cfg, m, trace[i].now)
        ensures id < |Run(cfg, EMPTY, trace).invoices| && FeeLine(cfg, m) in AccountOf(Run(cfg, EMPTY, trace), id).lines
      {
        AckedFeeLasts(cfg, trace, i, id);
      }
    }
  }

  lemma AnsweredIsHonoured(cfg: Config, trace: seq<Step>, acked: seq<Message>, at: seq<nat>)
    requires ConsumerOnly(trace) && Answered(cfg, trace, acked, at)
    ensures forall k :: 0 <= k < |at| ==> Honoured(cfg, trace, at[k])
  {
    forall k | 0 <= k < |at|
      ensures Honoured(cfg, trace, at[k])
    {
      AckedIsHonoured(cfg, trace, at[k]);
    }
  }

  class Subscriber {
    var queue: seq<Message>
    const consumer: ReservationConsumer

    constructor (queue: seq<Message>, consumer: ReservationConsumer)
      ensures this.queue == queue && this.consumer == consumer
    {
      this.queue, this.consumer := queue, consumer;
    }

    /** One delivery. The message leaves the queue only if it is acknowledged and the
        acknowledgement arrives; otherwise it goes back to the end. */
    method TakeTurn(turn: Turn, ghost before: seq<Step>) returns (m: Message, acked: bool)
      requires consumer.uc.Wired() && |queue| > 0
      requires consumer.uc.repo.Contents() == Run(consumer.uc.cfg, EMPTY, before)
      modifies this`queue, consumer.uc.repo
      ensures m == old(queue)[turn.pick % |old(queue)|]
      ensures
        var after := before + [Deliver(m, turn.now, turn.fault)];
        && consumer.uc.repo.Contents() == Run(consumer.uc.cfg, EMPTY, after)
        && (acked <==> ReplyAt(consumer.uc.cfg, after, |before|) == Ack && !turn.ackLost)
      ensures multiset(old(queue)) == multiset(queue) + if acked then multiset{m} else multiset{}
    {
      var p := turn.pick % |queue|;
      m := queue[p];
      TakeOut(queue, p);
      ghost var after := before + [Deliver(m, turn.now, turn.fault)];
      assert after[..|before|] == before && after[..|after| - 1] == before;
      var reply := consumer.Handle(m, turn.now, turn.fault);
      acked := reply == Ack && !turn.ackLost;
      queue := queue[..p] + queue[p + 1..] + if acked then [] else [m];
      assert acked ==> queue == old(queue)[..p] + old(queue)[p + 1..];
    }

    /** The consume loop, for as many turns as the script has. */
    method Loop(script: seq<Turn>, ghost history: seq<Step>)
      returns (acked: seq<Message>, trace: seq<Step>, ghost at: seq<nat>)
      requires consumer.uc.Wired() && ConsumerOnly(history)
      requires consumer.uc.repo.Contents() == Run(consumer.uc.cfg, EMPTY, history)
      modifies this`queue, consumer.uc.repo
      ensures multiset(queue) + multiset(acked) == multiset(old(queue))
      ensures ConsumerOnly(history + trace) && consumer.uc.repo.Contents() == Run(consumer.uc.cfg, EMPTY, history + trace)
      ensures Answered(consumer.uc.cfg, history + trace, acked, at)
      ensures Follows(trace, script, old(queue)) && (queue == [] || |trace| == |script|)
    {
      ghost var cfg := consumer.uc.cfg;
      acked, trace, at := [], [], [];
      ghost var full := history;
      for i := 0 to |script|
        invariant multiset(queue) + multiset(acked) == multiset(old(queue))
        invariant ConsumerOnly(full) && consumer.uc.repo.Contents() == Run(cfg, EMPTY, full)
        invariant Answered(cfg, full, acked, at)
        invariant full == history + trace
        invariant Follows(trace, script, old(queue)) && |trace| <= i && (queue == [] || |trace| == i)
      {
        if |queue| > 0 {
          ghost var left := queue;
          var m, done := TakeTurn(script[i], full);
          var step := Deliver(m, script[i].now, script[i].fault);
          FollowsGrows(trace, script, old(queue), left, acked, m);
          AnsweredGrows(cfg, full, step, acked, at);
          if done {
            acked, at := acked + [m], at + [|full|];
          }
          trace, full := trace + [step], full + [step];
        }
      }
    }

    /** Consuming on a ledger that earlier deliveries left behind: no message is lost or
        invented, the ledger is that of the delivered trace, and every acknowledged
        message, delivered at its step `at[k]`, has left its lasting effect. */
    method Consume(script: seq<Turn>, ghost history: seq<Step>)
      returns (acked: seq<Message>, trace: seq<Step>, ghost at: seq<nat>)
      requires consumer.uc.Wired() && ConsumerOnly(history)
      requires consumer.uc.repo.Contents() == Run(consumer.uc.cfg, EMPTY, history)
      modifies this`queue, consumer.uc.repo
      ensures multiset(queue) + multiset(acked) == multiset(old(queue))
      ensures ConsumerOnly(history + trace) && consumer.uc.repo.Contents() == Run(consumer.uc.cfg, EMPTY, history + trace)
      ensures Follows(trace, script, old(queue)) && (queue == [] || |trace| == |script|)
      ensures Answered(consumer.uc.cfg, history + trace, acked, at)
      ensures forall k :: 0 <= k < |at| ==> Honoured(consumer.uc.cfg, history + trace, at[k])
    {
      acked, trace, at := Loop(script, history);
      AnsweredIsHonoured(consumer.uc.cfg, history + trace, acked, at);
    }
  }
}
