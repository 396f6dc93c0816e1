/** From the ledger to the broker: transactions draw their outbox id while they run and
    commit in any order; one publisher drains the rows that are visible. */
module Chain {
  import opened Pricing
  import opened Accounts
  import opened Ledger
  import opened Billing
  import Interleaving
  import Payments
  import Publisher

  /** A transaction that has drawn outbox id `id` and has not committed. */
  datatype Tx =
    | OpenTxn(reservation: string, driver: string, key: string, id: nat)
    | CloseTxn(invoice: nat, session: Session, id: nat)
    | FeeTxn(invoice: nat, kind: LineKind, amount: int, id: nat)
    | PayTxn(invoice: nat, notification: Payments.Notification, id: nat)

  /** Invoice and payment transactions write to one outbox table and draw from one
      sequence. Row k of `db.outbox` has id `ledgerIds[k]`, row k of `desk.outbox` has id
      `deskIds[k]`, both in commit order. */
  datatype System = System(
    db: Tables, desk: Payments.Store, next: nat, txs: seq<Tx>, ledgerIds: seq<nat>, deskIds: seq<nat>,
    pub: Publisher.Pub)

  const START := System(EMPTY, Payments.NOTHING, 0, [], [], [], Publisher.IDLE)

  datatype Event =
    | BeginOpen(reservation: string, driver: string, key: string)
    | BeginClose(invoice: nat, session: Session)
    | BeginFee(invoice: nat, kind: LineKind, amount: int)
    | BeginPay(notification: Payments.Notification)
    | RequestPayment(reservation: string, request: string, amount: int, fault: Fault)
    | CommitTx(tx: nat, now: Instant, fault: Fault)
    | RollbackTx(tx: nat)
    | Fetch(limit: nat)
    | Send(sent: nat, markOk: bool)

  function Without(txs: seq<Tx>, i: nat): seq<Tx>
    requires i < |txs|
  {
    txs[..i] + txs[i + 1..]
  }

  /** What committing a transaction does to the invoice tables. */
  function Effect(cfg: Config, db: Tables, tx: Tx, now: Instant, fault: Fault): Tables {
    match tx
    case OpenTxn(reservation, driver, key, _) => OpenInvoice(cfg, db, reservation, driver, key, fault).db
    case CloseTxn(invoice, session, _) => CloseInvoice(cfg, db, invoice, session, now, fault).db
    case FeeTxn(invoice, kind, amount, _) => AppendTx(db, invoice, Line(kind, amount), FeeAdded(kind, amount), fault).db
    case PayTxn(_, _, _) => db
  }

  /** And to the payment requests. */
  function PayEffect(desk: Payments.Store, tx: Tx, fault: Fault): Payments.Store {
    if tx.PayTxn? then Payments.NotifyTx(desk, tx.notification, fault) else desk
  }

  function Begin(c: System, tx: Tx): System {
    c.(next := c.next + 1, txs := c.txs + [tx])
  }

  function Drop(c: System, i: nat): System
    requires i < |c.txs|
  {
    c.(txs := Without(c.txs, i))
  }

  ghost function CommitAt(cfg: Config, c: System, i: nat, now: Instant, fault: Fault): System
    requires i < |c.txs|
  {
    var tx := c.txs[i];
    var db', desk' := Effect(cfg, c.db, tx, now, fault), PayEffect(c.desk, tx, fault);
    var pub' := Publisher.Next(c.pub, Publisher.Commit(tx.id));
    if db' != c.db then System(db', c.desk, c.next, Without(c.txs, i), c.ledgerIds + [tx.id], c.deskIds, pub')
    else if desk' != c.desk then System(c.db, desk', c.next, Without(c.txs, i), c.ledgerIds, c.deskIds + [tx.id], pub')
    else Drop(c, i)
  }

  /** Closing, charging and paying read an existing row before they draw an outbox id, so
      they begin only when it is there. The two fee handlers charge the configured fees
      only. */
  ghost function Next(cfg: Config, c: System, e: Event): System {
    match e
    case BeginOpen(reservation, driver, key) => Begin(c, OpenTxn(reservation, driver, key, c.next))
    case BeginClose(invoice, session) =>
      if invoice >= |c.db.invoices| then c else Begin(c, CloseTxn(invoice, session, c.next))
    case BeginFee(invoice, kind, amount) =>
      if invoice >= |c.db.invoices| || !FeeOk(cfg, kind, amount) then c
      else Begin(c, FeeTxn(invoice, kind, amount, c.next))
    case BeginPay(n) =>
      if n.order !in c.desk.requests then c
      else Begin(c, PayTxn(c.desk.requests[n.order].details.invoice, n, c.next))
    case RequestPayment(reservation, request, amount, fault) =>
      (match FindInvoice(c.db, reservation)
       case Found(v) => c.(desk := Payments.CreateTx(c.desk, request, Payments.Details(reservation, v, amount), fault))
       case Missing => c
       case Rejected => c)
    case CommitTx(i, now, fault) => if i >= |c.txs| then c else CommitAt(cfg, c, i, now, fault)
    case RollbackTx(i) => if i >= |c.txs| then c else Drop(c, i)
    case Fetch(limit) => c.(pub := Publisher.Next(c.pub, Publisher.Select(limit)))
    case Send(sent, markOk) => c.(pub := Publisher.Next(c.pub, Publisher.Drain(sent, markOk)))
  }

  ghost function Run(cfg: Config, events: seq<Event>): System {
    if events == [] then START else Next(cfg, Run(cfg, events[..|events| - 1]), events[|events| - 1])
  }

  /** The events of a later part of a run, taken from the state they find. */
  ghost function From(cfg: Config, c: System, events: seq<Event>): System {
    if events == [] then c else Next(cfg, From(cfg, c, events[..|events| - 1]), events[|events| - 1])
  }

  lemma {:induction false} RunFrom(cfg: Config, events: seq<Event>, after: seq<Event>)
    ensures Run(cfg, events + after) == From(cfg, Run(cfg, events), after)
  {
    if after == [] {
      assert events + after == events;
    } else {
      assert (events + after)[..|events + after| - 1] == events + after[..|after| - 1];
      RunFrom(cfg, events, after[..|after| - 1]);
    }
  }

  lemma {:induction false} FromConcat(cfg: Config, c: System, first: seq<Event>, second: seq<Event>)
    ensures From(cfg, c, first + second) == From(cfg, From(cfg, c, first), second)
  {
    if second == [] {
      assert first + second == first;
    } else {
      assert (first + second)[..|first + second| - 1] == first + second[..|second| - 1];
      FromConcat(cfg, c, first, second[..|second| - 1]);
    }
  }

  lemma RunSnoc(cfg: Config, events: seq<Event>, e: Event)
    ensures Run(cfg, events + [e]) == Next(cfg, Run(cfg, events), e)
  {
    assert (events + [e])[..|events|] == events;
  }

  /* ---------- the invariant ---------- */

  predicate Announces(db: Tables, k: nat, invoice: nat) {
    k < |db.outbox| && db.outbox[k].invoice == invoice && db.outbox[k].value.Opened?
  }

  ghost predicate OpeningSeen(db: Tables, invoice: nat) {
    exists k0: nat :: Announces(db, k0, invoice)
  }

  ghost predicate Distinct(s: seq<nat>) {
    forall i, j :: 0 <= i < j < |s| ==> s[i] != s[j]
  }

  /** The two halves of the outbox table share its ids without overlap. */
  ghost predicate Numbered(c: System) {
    && |c.ledgerIds| == |c.db.outbox| && |c.deskIds| == |c.desk.outbox|
    && Distinct(c.ledgerIds) && Distinct(c.deskIds)
    && (forall x :: x in c.ledgerIds ==> x !in c.deskIds)
    && (forall x :: x in c.pub.committed <==> x in c.ledgerIds || x in c.deskIds)
  }

  ghost predicate Fresh(c: System) {
    && Numbered(c)
    && (forall x :: x in c.pub.committed ==> x < c.next)
    && (forall i :: 0 <= i < |c.txs| ==> c.txs[i].id < c.next && c.txs[i].id !in c.pub.committed)
    && (forall i, j :: 0 <= i < j < |c.txs| ==> c.txs[i].id != c.txs[j].id)
  }

  /** The opening row `k0` of an invoice has a smaller id than `b` and stays ahead of it. */
  ghost predicate Leads(c: System, k0: nat, invoice: nat, b: nat)
    requires Numbered(c)
  {
    Announces(c.db, k0, invoice) && c.ledgerIds[k0] < b && Publisher.Precedes(c.pub, c.ledgerIds[k0], b)
  }

  ghost predicate Led(c: System, invoice: nat, b: nat)
    requires Numbered(c)
  {
    exists k0: nat :: Leads(c, k0, invoice, b)
  }

  /** Payment requests, and transactions about them, name an existing invoice. */
  ghost predicate Billed(c: System) {
    && (forall r :: r in c.desk.requests ==> c.desk.requests[r].details.invoice < |c.db.invoices|)
    && (forall i :: 0 <= i < |c.txs| && c.txs[i].PayTxn? ==>
          && c.txs[i].notification.order in c.desk.requests
          && c.desk.requests[c.txs[i].notification.order].details.invoice == c.txs[i].invoice)
  }

  ghost predicate Causal(c: System) {
    && Fresh(c)
    && Integrity(c.db)
    && Billed(c)
    && Publisher.Honest(c.pub)
    && (forall v :: 0 <= v < |c.db.invoices| ==> OpeningSeen(c.db, v))
    && (forall k :: 0 <= k < |c.db.outbox| && !c.db.outbox[k].value.Opened? ==>
          Led(c, c.db.outbox[k].invoice, c.ledgerIds[k]))
    && (forall k :: 0 <= k < |c.desk.outbox| ==> Led(c, c.desk.outbox[k].details.invoice, c.deskIds[k]))
    && (forall i :: 0 <= i < |c.txs| && !c.txs[i].OpenTxn? ==>
          c.txs[i].invoice < |c.db.invoices| && Led(c, c.txs[i].invoice, c.txs[i].id))
  }

  /** Each transaction writes at most one outbox row, for the invoice it works on. */
  lemma EffectAddsOneRow(cfg: Config, db: Tables, tx: Tx, now: Instant, fault: Fault)
    requires Integrity(db)
    ensures
      var db' := Effect(cfg, db, tx, now, fault);
      && Integrity(db')
      && |db'.invoices| >= |db.invoices|
      && (db' == db ||
          (&& |db'.outbox| == |db.outbox| + 1 && db'.outbox[..|db.outbox|] == db.outbox
           && var row := db'.outbox[|db.outbox|];
              if tx.OpenTxn? then row == Row(|db.invoices|, Opened(cfg.booking)) && |db'.invoices| == |db.invoices| + 1
              else row.invoice == tx.invoice && !row.value.Opened? && |db'.invoices| == |db.invoices|))
  {
    match tx
    case OpenTxn(reservation, driver, key, _) =>
      OpenActsOnFreshAccount(db, reservation, driver, key, cfg.booking, Opened(cfg.booking), fault);
    case CloseTxn(invoice, session, _) =>
      CloseActsOnOneAccount(db, invoice, DropFreeCancellation(Quote(cfg, session)), ClosedWith(Quote(cfg, session)), now, fault);
    case FeeTxn(invoice, kind, amount, _) =>
      AppendActsOnOneAccount(db, invoice, Line(kind, amount), FeeAdded(kind, amount), fault);
    case PayTxn(_, _, _) =>
  }

  /** A payment transaction writes at most one row, for the invoice of its request, and
      keeps every request's details. */
  lemma PayAddsOneRow(desk: Payments.Store, tx: Tx, fault: Fault)
    requires PayEffect(desk, tx, fault) != desk
    ensures
      var desk' := PayEffect(desk, tx, fault);
      && tx.PayTxn? && tx.notification.order in desk.requests
      && (forall r :: r in desk.requests <==> r in desk'.requests)
      && (forall r :: r in desk.requests ==> desk'.requests[r].details == desk.requests[r].details)
      && |desk'.outbox| == |desk.outbox| + 1 && desk'.outbox[..|desk.outbox|] == desk.outbox
      && desk'.outbox[|desk.outbox|].details == desk.requests[tx.notification.order].details
  {
  }

  /** `c'` has the rows of `c`, possibly one more, and the same ids for them. */
  ghost predicate KeepsRows(c: System, c': System) {
    c.db.outbox <= c'.db.outbox && c.desk.outbox <= c'.desk.outbox && c.ledgerIds <= c'.ledgerIds && c.deskIds <= c'.deskIds
  }

  /** What led `b` still does after a publisher step that does not show `b` itself. */
  lemma LedAfterStep(c: System, c': System, step: Publisher.Step, invoice: nat, b: nat)
    requires Numbered(c) && Numbered(c') && Publisher.Honest(c.pub) && KeepsRows(c, c')
    requires c'.pub == Publisher.Next(c.pub, step) && Led(c, invoice, b)
    ensures Led(c', invoice, b)
  {
    var k0: nat :| Leads(c, k0, invoice, b);
    assert c.ledgerIds[k0] in c.ledgerIds;
    Publisher.NextPrecedes(c.pub, step, c.ledgerIds[k0], b);
    assert Leads(c', k0, invoice, b);
  }

  lemma LedWhileIdle(c: System, c': System)
    requires Numbered(c) && Numbered(c') && KeepsRows(c, c') && c'.pub == c.pub
    ensures forall invoice, b :: Led(c, invoice, b) ==> Led(c', invoice, b)
  {
    forall invoice, b | Led(c, invoice, b)
      ensures Led(c', invoice, b)
    {
      var k0: nat :| Leads(c, k0, invoice, b);
      assert Leads(c', k0, invoice, b);
    }
  }

  /** An id not yet drawn is led by the opening row of every existing invoice. */
  lemma LedWhenDrawn(c: System, invoice: nat)
    requires Causal(c) && invoice < |c.db.invoices|
    ensures Led(c, invoice, c.next)
  {
    assert OpeningSeen(c.db, invoice);
    var k0: nat :| Announces(c.db, k0, invoice);
    assert c.ledgerIds[k0] in c.ledgerIds;
    assert c.next !in c.pub.committed;
    assert Leads(c, k0, invoice, c.next);
  }

  /* ---------- every event keeps the invariant ---------- */

  lemma DistinctSnoc(s: seq<nat>, x: nat)
    requires Distinct(s) && x !in s
    ensures Distinct(s + [x])
  {
  }

  lemma WithoutFresh(c: System, c': System, i: nat)
    requires Fresh(c) && i < |c.txs| && c'.txs == Without(c.txs, i) && Numbered(c') && c'.next == c.next
    requires forall x :: x in c'.pub.committed ==> x in c.pub.committed || x == c.txs[i].id
    ensures Fresh(c')
  {
    forall j | 0 <= j < |c'.txs|
      ensures c'.txs[j] == c.txs[if j < i then j else j + 1] && c'.txs[j].id != c.txs[i].id
    {
    }
  }

  lemma LedgerCommitKeepsFresh(cfg: Config, c: System, i: nat, now: Instant, fault: Fault)
    requires Causal(c) && i < |c.txs| && Effect(cfg, c.db, c.txs[i], now, fault) != c.db
    ensures Fresh(CommitAt(cfg, c, i, now, fault)) && KeepsRows(c, CommitAt(cfg, c, i, now, fault))
  {
    EffectAddsOneRow(cfg, c.db, c.txs[i], now, fault);
    DistinctSnoc(c.ledgerIds, c.txs[i].id);
    WithoutFresh(c, CommitAt(cfg, c, i, now, fault), i);
  }

  lemma PaymentKeepsFresh(cfg: Config, c: System, i: nat, now: Instant, fault: Fault)
    requires Causal(c) && i < |c.txs| && PayEffect(c.desk, c.txs[i], fault) != c.desk
    ensures Fresh(CommitAt(cfg, c, i, now, fault)) && KeepsRows(c, CommitAt(cfg, c, i, now, fault))
  {
    PayAddsOneRow(c.desk, c.txs[i], fault);
    DistinctSnoc(c.deskIds, c.txs[i].id);
    WithoutFresh(c, CommitAt(cfg, c, i, now, fault), i);
  }

  lemma CommitKeepsBilled(cfg: Config, c: System, i: nat, now: Instant, fault: Fault)
    requires Causal(c) && i < |c.txs|
    ensures Billed(CommitAt(cfg, c, i, now, fault))
  {
    EffectAddsOneRow(cfg, c.db, c.txs[i], now, fault);
    if PayEffect(c.desk, c.txs[i], fault) != c.desk {
      PayAddsOneRow(c.desk, c.txs[i], fault);
    }
  }

  lemma OpeningsLast(c: System, c': System, n: nat)
    requires c.db.outbox <= c'.db.outbox && n <= |c'.db.invoices| && n <= |c.db.invoices|
    requires forall v :: 0 <= v < |c.db.invoices| ==> OpeningSeen(c.db, v)
    ensures forall v :: 0 <= v < n ==> OpeningSeen(c'.db, v)
  {
    forall v | 0 <= v < n
      ensures OpeningSeen(c'.db, v)
    {
      assert OpeningSeen(c.db, v);
      var k0: nat :| Announces(c.db, k0, v);
      assert Announces(c'.db, k0, v);
    }
  }

  /** The rows of `c` and its transactions are led in `c'` as they were in `c`. */
  lemma LedRowsLast(c: System, c': System, step: Publisher.Step)
    requires Causal(c) && Numbered(c') && KeepsRows(c, c') && c'.pub == Publisher.Next(c.pub, step)
    ensures forall k :: 0 <= k < |c.db.outbox| && !c'.db.outbox[k].value.Opened? ==>
              Led(c', c'.db.outbox[k].invoice, c'.ledgerIds[k])
    ensures forall k :: 0 <= k < |c.desk.outbox| ==> Led(c', c'.desk.outbox[k].details.invoice, c'.deskIds[k])
    ensures forall i :: 0 <= i < |c.txs| && !c.txs[i].OpenTxn? ==> Led(c', c.txs[i].invoice, c.txs[i].id)
  {
    forall k | 0 <= k < |c.db.outbox| && !c'.db.outbox[k].value.Opened?
      ensures Led(c', c'.db.outbox[k].invoice, c'.ledgerIds[k])
    {
      assert c'.db.outbox[k] == c.db.outbox[k] && c'.ledgerIds[k] == c.ledgerIds[k];
      LedAfterStep(c, c', step, c.db.outbox[k].invoice, c.ledgerIds[k]);
    }
    forall k | 0 <= k < |c.desk.outbox|
      ensures Led(c', c'.desk.outbox[k].details.invoice, c'.deskIds[k])
    {
      assert c'.desk.outbox[k] == c.desk.outbox[k] && c'.deskIds[k] == c.deskIds[k];
      LedAfterStep(c, c', step, c.desk.outbox[k].details.invoice, c.deskIds[k]);
    }
    forall i | 0 <= i < |c.txs| && !c.txs[i].OpenTxn?
      ensures Led(c', c.txs[i].invoice, c.txs[i].id)
    {
      LedAfterStep(c, c', step, c.txs[i].invoice, c.txs[i].id);
    }
  }

  lemma TxsLast(c: System, c': System, i: nat)
    requires i < |c.txs| && c'.txs == Without(c.txs, i) && Numbered(c') && |c.db.invoices| <= |c'.db.invoices|
    requires forall j :: 0 <= j < |c.txs| && !c.txs[j].OpenTxn? ==>
               c.txs[j].invoice < |c.db.invoices| && Led(c', c.txs[j].invoice, c.txs[j].id)
    ensures forall j :: 0 <= j < |c'.txs| && !c'.txs[j].OpenTxn? ==>
              c'.txs[j].invoice < |c'.db.invoices| && Led(c', c'.txs[j].invoice, c'.txs[j].id)
  {
    forall j | 0 <= j < |c'.txs| && !c'.txs[j].OpenTxn?
      ensures c'.txs[j].invoice < |c'.db.invoices| && Led(c', c'.txs[j].invoice, c'.txs[j].id)
    {
      assert c'.txs[j] == c.txs[if j < i then j else j + 1];
    }
  }

  lemma CommitKeepsCausal(cfg: Config, c: System, i: nat, now: Instant, fault: Fault)
    requires Causal(c) && i < |c.txs| && Effect(cfg, c.db, c.txs[i], now, fault) != c.db
    ensures Causal(CommitAt(cfg, c, i, now, fault))
  {
    var tx := c.txs[i];
    var c' := CommitAt(cfg, c, i, now, fault);
    EffectAddsOneRow(cfg, c.db, tx, now, fault);
    LedgerCommitKeepsFresh(cfg, c, i, now, fault);
    CommitKeepsBilled(cfg, c, i, now, fault);
    Publisher.NextHonest(c.pub, Publisher.Commit(tx.id));
    LedRowsLast(c, c', Publisher.Commit(tx.id));
    TxsLast(c, c', i);
    OpeningsLast(c, c', |c.db.invoices|);
    if tx.OpenTxn? {
      assert Announces(c'.db, |c.db.outbox|, |c.db.invoices|);
    }
  }

  lemma PaymentKeepsCausal(cfg: Config, c: System, i: nat, now: Instant, fault: Fault)
    requires Causal(c) && i < |c.txs| && PayEffect(c.desk, c.txs[i], fault) != c.desk
    ensures Causal(CommitAt(cfg, c, i, now, fault))
  {
    var tx := c.txs[i];
    var c' := CommitAt(cfg, c, i, now, fault);
    PayAddsOneRow(c.desk, tx, fault);
    PaymentKeepsFresh(cfg, c, i, now, fault);
    CommitKeepsBilled(cfg, c, i, now, fault);
    Publisher.NextHonest(c.pub, Publisher.Commit(tx.id));
    LedRowsLast(c, c', Publisher.Commit(tx.id));
    TxsLast(c, c', i);
    OpeningsLast(c, c', |c.db.invoices|);
  }

  lemma BeginKeepsCausal(c: System, tx: Tx)
    requires Causal(c) && tx.id == c.next
    requires !tx.OpenTxn? ==> tx.invoice < |c.db.invoices|
    requires tx.PayTxn? ==> (&& tx.notification.order in c.desk.requests
                             && c.desk.requests[tx.notification.order].details.invoice == tx.invoice)
    ensures Causal(Begin(c, tx))
  {
    if !tx.OpenTxn? {
      LedWhenDrawn(c, tx.invoice);
    }
    assert Fresh(Begin(c, tx));
    LedWhileIdle(c, Begin(c, tx));
  }

  lemma DropKeepsCausal(c: System, i: nat)
    requires Causal(c) && i < |c.txs|
    ensures Causal(Drop(c, i))
  {
    assert Fresh(Drop(c, i));
    LedWhileIdle(c, Drop(c, i));
    TxsLast(c, Drop(c, i), i);
  }

  lemma RequestKeepsCausal(c: System, request: string, d: Payments.Details, fault: Fault)
    requires Causal(c) && d.invoice < |c.db.invoices|
    ensures Causal(c.(desk := Payments.CreateTx(c.desk, request, d, fault)))
  {
    var c' := c.(desk := Payments.CreateTx(c.desk, request, d, fault));
    assert Fresh(c');
    LedWhileIdle(c, c');
  }

  lemma WorkerKeepsCausal(c: System, step: Publisher.Step)
    requires Causal(c) && !step.Commit?
    ensures Causal(c.(pub := Publisher.Next(c.pub, step)))
  {
    var c' := c.(pub := Publisher.Next(c.pub, step));
    Publisher.NextHonest(c.pub, step);
    assert Fresh(c');
    LedRowsLast(c, c', step);
  }

  lemma NextCausal(cfg: Config, c: System, e: Event)
    requires Causal(c)
    ensures Causal(Next(cfg, c, e))
  {
    match e
    case CommitTx(i, now, fault) =>
      if i < |c.txs| {
        if Effect(cfg, c.db, c.txs[i], now, fault) != c.db {
          CommitKeepsCausal(cfg, c, i, now, fault);
        } else if PayEffect(c.desk, c.txs[i], fault) != c.desk {
          PaymentKeepsCausal(cfg, c, i, now, fault);
        } else {
          DropKeepsCausal(c, i);
        }
      }
    case RollbackTx(i) =>
      if i < |c.txs| {
        DropKeepsCausal(c, i);
      }
    case Fetch(limit) => WorkerKeepsCausal(c, Publisher.Select(limit));
    case Send(sent, markOk) => WorkerKeepsCausal(c, Publisher.Drain(sent, markOk));
    case RequestPayment(reservation, request, amount, fault) =>
      if FindInvoice(c.db, reservation).Found? {
        var v := FindInvoice(c.db, reservation).invoice;
        RequestKeepsCausal(c, request, Payments.Details(reservation, v, amount), fault);
      }
    case BeginOpen(reservation, driver, key) => BeginKeepsCausal(c, OpenTxn(reservation, driver, key, c.next));
    case BeginClose(invoice, session) =>
      if invoice < |c.db.invoices| {
        BeginKeepsCausal(c, CloseTxn(invoice, session, c.next));
      }
    case BeginFee(invoice, kind, amount) =>
      if invoice < |c.db.invoices| {
        BeginKeepsCausal(c, FeeTxn(invoice, kind, amount, c.next));
      }
    case BeginPay(n) =>
      if n.order in c.desk.requests {
        BeginKeepsCausal(c, PayTxn(c.desk.requests[n.order].details.invoice, n, c.next));
      }
  }

  lemma {:induction false} RunCausal(cfg: Config, events: seq<Event>)
    ensures Causal(Run(cfg, events))
  {
    if events != [] {
      RunCausal(cfg, events[..|events| - 1]);
      NextCausal(cfg, Run(cfg, events[..|events| - 1]), events[|events| - 1]);
    }
  }

  /* ---------- causal order at the broker ---------- */

  lemma LedIsPreceded(c: System, invoice: nat, j: nat) returns (i: nat, k0: nat)
    requires Numbered(c) && j < |c.pub.log| && Led(c, invoice, c.pub.log[j])
    ensures i < j && k0 < |c.ledgerIds| && c.pub.log[i] == c.ledgerIds[k0] && Announces(c.db, k0, invoice)
  {
    k0 :| Leads(c, k0, invoice, c.pub.log[j]);
    i :| 0 <= i < j && c.pub.log[..j][i] == c.ledgerIds[k0];
  }

  /** No invoice's closed event reaches the broker before its opened event, although
      transactions commit out of id order and publishing and marking may fail. */
  lemma OpenedReachesBrokerFirst(cfg: Config, events: seq<Event>, j: nat, k: nat) returns (i: nat, k0: nat)
    requires
      var c := Run(cfg, events);
      && j < |c.pub.log| && k < |c.db.outbox| && k < |c.ledgerIds|
      && c.pub.log[j] == c.ledgerIds[k] && !c.db.outbox[k].value.Opened?
    ensures
      var c := Run(cfg, events);
      && i < j && k0 < |c.ledgerIds| && c.pub.log[i] == c.ledgerIds[k0]
      && Announces(c.db, k0, c.db.outbox[k].invoice)
  {
    RunCausal(cfg, events);
    var c := Run(cfg, events);
    i, k0 := LedIsPreceded(c, c.db.outbox[k].invoice, j);
  }

  /** Nor does any event of a payment: the opened event of the invoice it pays precedes
      it. */
  lemma OpenedPrecedesPayment(cfg: Config, events: seq<Event>, j: nat, k: nat) returns (i: nat, k0: nat)
    requires
      var c := Run(cfg, events);
      && j < |c.pub.log| && k < |c.desk.outbox| && k < |c.deskIds| && c.pub.log[j] == c.deskIds[k]
    ensures
      var c := Run(cfg, events);
      && i < j && k0 < |c.ledgerIds| && c.pub.log[i] == c.ledgerIds[k0]
      && Announces(c.db, k0, c.desk.outbox[k].details.invoice)
  {
    RunCausal(cfg, events);
    var c := Run(cfg, events);
    i, k0 := LedIsPreceded(c, c.desk.outbox[k].details.invoice, j);
  }

  /* ---------- the two halves of a run ---------- */

  ghost predicate Lawful(cfg: Config, c: System) {
    && Interleaving.LedgerOk(cfg, c.db)
    && (forall i :: 0 <= i < |c.txs| && c.txs[i].FeeTxn? ==> FeeOk(cfg, c.txs[i].kind, c.txs[i].amount))
  }

  lemma EffectLawful(cfg: Config, db: Tables, tx: Tx, now: Instant, fault: Fault)
    requires Interleaving.LedgerOk(cfg, db) && (tx.FeeTxn? ==> FeeOk(cfg, tx.kind, tx.amount))
    ensures Interleaving.LedgerOk(cfg, Effect(cfg, db, tx, now, fault))
    ensures Interleaving.Grows(db, Effect(cfg, db, tx, now, fault))
  {
    match tx
    case OpenTxn(reservation, driver, key, _) => Interleaving.OpenSound(cfg, db, reservation, driver, key, fault);
    case CloseTxn(invoice, session, _) => Interleaving.CloseSound(cfg, db, invoice, session, now, fault);
    case FeeTxn(invoice, kind, amount, _) => Interleaving.FeeSound(cfg, db, invoice, kind, amount, fault);
    case PayTxn(_, _, _) =>
  }

  lemma CommitLawful(cfg: Config, c: System, i: nat, now: Instant, fault: Fault)
    requires Lawful(cfg, c) && i < |c.txs|
    ensures Lawful(cfg, CommitAt(cfg, c, i, now, fault)) && Interleaving.Grows(c.db, CommitAt(cfg, c, i, now, fault).db)
  {
    var c' := CommitAt(cfg, c, i, now, fault);
    EffectLawful(cfg, c.db, c.txs[i], now, fault);
    assert c'.db == Effect(cfg, c.db, c.txs[i], now, fault) && c'.txs == Without(c.txs, i);
  }

  lemma NextLawful(cfg: Config, c: System, e: Event)
    requires Lawful(cfg, c)
    ensures Lawful(cfg, Next(cfg, c, e)) && Interleaving.Grows(c.db, Next(cfg, c, e).db)
  {
    if e.CommitTx? {
      if e.tx < |c.txs| {
        CommitLawful(cfg, c, e.tx, e.now, e.fault);
      }
    } else {
      assert Next(cfg, c, e).db == c.db;
    }
  }

  /** The invoice tables of every run satisfy every invoice's invariant. */
  lemma {:induction false} RunLawful(cfg: Config, events: seq<Event>)
    ensures Lawful(cfg, Run(cfg, events))
  {
    if events != [] {
      RunLawful(cfg, events[..|events| - 1]);
      NextLawful(cfg, Run(cfg, events[..|events| - 1]), events[|events| - 1]);
    }
  }

  /** From any point of a run to any later one the invoice tables only grow. */
  lemma {:induction false} RunGrows(cfg: Config, events: seq<Event>, after: seq<Event>)
    ensures Interleaving.Grows(Run(cfg, events).db, Run(cfg, events + after).db)
  {
    if after == [] {
      assert events + after == events;
    } else {
      var init := after[..|after| - 1];
      assert (events + after)[..|events + after| - 1] == events + init;
      RunGrows(cfg, events, init);
      RunLawful(cfg, events + init);
      NextLawful(cfg, Run(cfg, events + init), after[|after| - 1]);
      Interleaving.GrowsTrans(Run(cfg, events).db, Run(cfg, events + init).db, Run(cfg, events + after).db);
    }
  }

  /** The payment requests of every run are those of a payment run. */
  lemma {:induction false} DeskIsPaymentRun(cfg: Config, events: seq<Event>) returns (steps: seq<Payments.Step>)
    ensures Run(cfg, events).desk == Payments.Run(steps)
  {
    if events == [] {
      steps := [];
    } else {
      var init, last := Run(cfg, events[..|events| - 1]), events[|events| - 1];
      steps := DeskIsPaymentRun(cfg, events[..|events| - 1]);
      if Next(cfg, init, last).desk != init.desk {
        var step;
        if last.CommitTx? {
          step := Payments.Notify(init.txs[last.tx].notification, last.fault);
        } else {
          var v := FindInvoice(init.db, last.reservation).invoice;
          step := Payments.Create(last.request, Payments.Details(last.reservation, v, last.amount), last.fault);
        }
        assert (steps + [step])[..|steps|] == steps;
        steps := steps + [step];
      }
    }
  }

  /* ---------- every interleaving is a run ---------- */

  lemma BeginThenCommit(cfg: Config, c: System, e: Event, tx: Tx, now: Instant, fault: Fault)
    requires c.txs == [] && Next(cfg, c, e) == Begin(c, tx)
    ensures
      var done := Next(cfg, Next(cfg, c, e), CommitTx(0, now, fault));
      done.txs == [] && done.db == Effect(cfg, c.db, tx, now, fault) && done.desk == PayEffect(c.desk, tx, fault)
  {
    assert Begin(c, tx).txs == [tx] && Without([tx], 0) == [];
  }

  /** A request for an invoiced reservation and a notification of a request take effect as
      events of a run. */
  lemma PaymentIsRun(cfg: Config, c: System, v: nat, request: string, amount: int, n: Payments.Notification, now: Instant,
                     fault: Fault)
    requires Integrity(c.db) && c.txs == [] && v < |c.db.invoices| && ValidUuid(c.db.invoices[v].reservation)
    ensures
      var reservation := c.db.invoices[v].reservation;
      Next(cfg, c, RequestPayment(reservation, request, amount, fault)).desk
      == Payments.CreateTx(c.desk, request, Payments.Details(reservation, v, amount), fault)
    ensures n.order in c.desk.requests ==>
              Next(cfg, Next(cfg, c, BeginPay(n)), CommitTx(0, now, fault)).desk == Payments.NotifyTx(c.desk, n, fault)
  {
    ReservationFindsInvoice(c.db, v);
    if n.order in c.desk.requests {
      BeginThenCommit(cfg, c, BeginPay(n), PayTxn(c.desk.requests[n.order].details.invoice, n, c.next), now, fault);
    }
  }

  /** The transaction that an action of the interleaved system commits, if any. */
  function TxnOf(w: Interleaving.World, a: Interleaving.Action): Option<Event> {
    match a
    case OpenNow(reservation, driver, key, _) => Some(BeginOpen(reservation, driver, key))
    case CloseNow(id, session, _, _) => if id < |w.db.invoices| then Some(BeginClose(id, session)) else None
    case Finish(i, _, _) =>
      if i >= |w.tasks| then None
      else
        (match w.tasks[i]
         case FeeTask(id, kind, amount) => Some(BeginFee(id, kind, amount))
         case CloseTask(id, session) => Some(BeginClose(id, session)))
    case ReadForCancel(_, _, _) => None
    case ReadForNoShow(_) => None
    case ReadForCheckout(_, _, _, _) => None
    case Abandon(_) => None
  }

  lemma ActionIsTransaction(cfg: Config, c: System, w: Interleaving.World, a: Interleaving.Action) returns (events: seq<Event>)
    requires Interleaving.Sound(cfg, w) && c.txs == [] && c.db == w.db
    ensures From(cfg, c, events).txs == [] && From(cfg, c, events).db == Interleaving.Next(cfg, w, a).db
  {
    var begin := TxnOf(w, a);
    if begin.None? {
      events := [];
      return;
    }
    var e, now, fault := begin.value, if a.OpenNow? then 0 else a.now, a.fault;
    if a.Finish? {
      assert Interleaving.TaskOk(cfg, w.db, w.tasks[a.task]);
    }
    var tx := Next(cfg, c, e).txs[0];
    BeginThenCommit(cfg, c, e, tx, now, fault);
    events := [e, CommitTx(0, now, fault)];
    assert events[..1] == [e] && [e][..0] == [];
    assert From(cfg, c, [e]) == Next(cfg, c, e);
  }

  /** Whatever ledger an interleaving of handlers reaches, a run of transactions and a
      publisher reaches too, so what is proved of the broker holds of it. */
  lemma {:induction false} InterleavingIsRun(cfg: Config, actions: seq<Interleaving.Action>) returns (events: seq<Event>)
    ensures Run(cfg, events).txs == [] && Run(cfg, events).db == Interleaving.Exec(cfg, Interleaving.INIT, actions).db
  {
    if actions == [] {
      events := [];
    } else {
      var init, last := actions[..|actions| - 1], actions[|actions| - 1];
      events := InterleavingIsRun(cfg, init);
      var w := Interleaving.Exec(cfg, Interleaving.INIT, init);
      Interleaving.ExecSound(cfg, Interleaving.INIT, init);
      var more := ActionIsTransaction(cfg, Run(cfg, events), w, last);
      RunFrom(cfg, events, more);
      events := events + more;
    }
  }
}
