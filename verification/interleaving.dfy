/** Every interleaving of opens, closes and event handlers. A fee handler reads the
    invoice status in one step and appends its line in a later one, without looking at
    the status again; a check-out handler looks the invoice up before closing it. */
module Interleaving {
  import opened Pricing
  import opened Accounts
  import opened Ledger
  import opened Billing

  /** A handler between its read and its transaction. */
  datatype Task =
    | FeeTask(invoice: nat, kind: LineKind, amount: int)
    | CloseTask(invoice: nat, session: Session)

  datatype World = World(db: Tables, tasks: seq<Task>)

  const INIT := World(EMPTY, [])

  datatype Action =
    | OpenNow(reservation: string, driver: string, key: string, fault: Fault)
    | CloseNow(invoice: nat, session: Session, now: Instant, fault: Fault)
    | ReadForCancel(reservation: string, confirmedAt: Instant, cancelledAt: Instant)
    | ReadForNoShow(reservation: string)
    | ReadForCheckout(reservation: string, confirmedAt: Instant, checkedInAt: Instant, checkedOutAt: Instant)
    | Finish(task: nat, now: Instant, fault: Fault)
    | Abandon(task: nat)

  function Without(tasks: seq<Task>, i: nat): seq<Task>
    requires i < |tasks|
  {
    tasks[..i] + tasks[i + 1..]
  }

  function ReadOpen(db: Tables, reservation: string, kind: LineKind, amount: int): seq<Task> {
    match FindInvoice(db, reservation)
    case Found(id) => if db.invoices[id].status == Open then [FeeTask(id, kind, amount)] else []
    case Missing => []
    case Rejected => []
  }

  function RunTask(cfg: Config, db: Tables, t: Task, now: Instant, fault: Fault): Result {
    match t
    case FeeTask(id, kind, amount) => AppendTx(db, id, Line(kind, amount), FeeAdded(kind, amount), fault)
    case CloseTask(id, session) => CloseInvoice(cfg, db, id, session, now, fault)
  }

  function Next(cfg: Config, w: World, a: Action): World {
    match a
    case OpenNow(reservation, driver, key, fault) =>
      World(OpenInvoice(cfg, w.db, reservation, driver, key, fault).db, w.tasks)
    case CloseNow(id, session, now, fault) =>
      World(CloseInvoice(cfg, w.db, id, session, now, fault).db, w.tasks)
    case ReadForCancel(reservation, confirmedAt, cancelledAt) =>
      var fee := CancelFee(cfg, confirmedAt, cancelledAt);
      World(w.db, w.tasks + if fee == 0 then [] else ReadOpen(w.db, reservation, Cancellation, fee))
    case ReadForNoShow(reservation) =>
      World(w.db, w.tasks + ReadOpen(w.db, reservation, NoShow, cfg.noShow))
    case ReadForCheckout(reservation, confirmedAt, checkedInAt, checkedOutAt) =>
      World(w.db, w.tasks +
                  match FindInvoice(w.db, reservation)
                  case Found(id) => [CloseTask(id, PlainSession(confirmedAt, checkedInAt, checkedOutAt))]
                  case Missing => []
                  case Rejected => [])
    case Finish(i, now, fault) =>
      if i >= |w.tasks| then w
      else World(RunTask(cfg, w.db, w.tasks[i], now, fault).db, Without(w.tasks, i))
    case Abandon(i) =>
      if i >= |w.tasks| then w else World(w.db, Without(w.tasks, i))
  }

  function Exec(cfg: Config, w: World, actions: seq<Action>): World {
    if actions == [] then w
    else Next(cfg, Exec(cfg, w, actions[..|actions| - 1]), actions[|actions| - 1])
  }

  lemma {:induction false} ExecConcat(cfg: Config, w: World, first: seq<Action>, second: seq<Action>)
    ensures Exec(cfg, w, first + second) == Exec(cfg, Exec(cfg, w, first), second)
  {
    if second == [] {
      assert first + second == first;
    } else {
      var init := second[..|second| - 1];
      assert (first + second)[..|first + second| - 1] == first + init;
      ExecConcat(cfg, w, first, init);
    }
  }

  /* ---------- the invariant ---------- */

  predicate TaskOk(cfg: Config, db: Tables, t: Task) {
    && t.invoice < |db.invoices|
    && (t.FeeTask? ==> FeeOk(cfg, t.kind, t.amount))
  }

  ghost predicate LedgerOk(cfg: Config, db: Tables) {
    && Integrity(db)
    && forall i :: 0 <= i < |db.invoices| ==> AccountOk(cfg, AccountOf(db, i))
  }

  ghost predicate Sound(cfg: Config, w: World) {
    && LedgerOk(cfg, w.db)
    && forall i :: 0 <= i < |w.tasks| ==> TaskOk(cfg, w.db, w.tasks[i])
  }

  /** What any step leaves alone in an invoice: who it is for, what is already written,
      and that it is closed. */
  ghost predicate Continues(a: Account, b: Account) {
    && b.row.reservation == a.row.reservation && b.row.driver == a.row.driver && b.row.key == a.row.key
    && a.lines <= b.lines
    && a.events <= b.events
    && (a.row.status == Closed ==> b.row.status == Closed && b.row.closedAt == a.row.closedAt)
  }

  ghost predicate Grows(db: Tables, db': Tables) {
    && |db.invoices| <= |db'.invoices|
    && forall i :: 0 <= i < |db.invoices| ==> Continues(AccountOf(db, i), AccountOf(db', i))
  }

  lemma GrowsTrans(a: Tables, b: Tables, c: Tables)
    requires Grows(a, b) && Grows(b, c)
    ensures Grows(a, c)
  {
    forall i | 0 <= i < |a.invoices|
      ensures Continues(AccountOf(a, i), AccountOf(c, i))
    {
      assert Continues(AccountOf(a, i), AccountOf(b, i)) && Continues(AccountOf(b, i), AccountOf(c, i));
    }
  }

  lemma OpenSound(cfg: Config, db: Tables, reservation: string, driver: string, key: string, fault: Fault)
    requires LedgerOk(cfg, db)
    ensures LedgerOk(cfg, OpenInvoice(cfg, db, reservation, driver, key, fault).db)
    ensures Grows(db, OpenInvoice(cfg, db, reservation, driver, key, fault).db)
  {
    if !Blank(reservation) && !Blank(key) {
      OpenActsOnFreshAccount(db, reservation, driver, key, cfg.booking, Opened(cfg.booking), fault);
      OpenAccountOk(cfg, reservation, driver, key);
    }
  }

  lemma CloseSound(cfg: Config, db: Tables, id: nat, s: Session, now: Instant, fault: Fault)
    requires LedgerOk(cfg, db)
    ensures LedgerOk(cfg, CloseInvoice(cfg, db, id, s, now, fault).db)
    ensures Grows(db, CloseInvoice(cfg, db, id, s, now, fault).db)
  {
    CloseActsOnOneAccount(db, id, DropFreeCancellation(Quote(cfg, s)), ClosedWith(Quote(cfg, s)), now, fault);
    if id < |db.invoices| && CloseSession(cfg, AccountOf(db, id), s, now).Some? {
      CloseSessionOk(cfg, AccountOf(db, id), s, now);
      ClosingInsertsOneLine(cfg, AccountOf(db, id).lines, s);
    }
  }

  lemma FeeSound(cfg: Config, db: Tables, id: nat, kind: LineKind, amount: int, fault: Fault)
    requires LedgerOk(cfg, db) && FeeOk(cfg, kind, amount)
    ensures LedgerOk(cfg, AppendTx(db, id, Line(kind, amount), FeeAdded(kind, amount), fault).db)
    ensures Grows(db, AppendTx(db, id, Line(kind, amount), FeeAdded(kind, amount), fault).db)
  {
    AppendActsOnOneAccount(db, id, Line(kind, amount), FeeAdded(kind, amount), fault);
    if id < |db.invoices| && AddFee(AccountOf(db, id), kind, amount).Some? {
      AddFeeOk(cfg, AccountOf(db, id), kind, amount);
    }
  }

  /** Tasks stay acceptable when the ledger grows. */
  lemma TasksLast(cfg: Config, w: World, db': Tables, tasks: seq<Task>)
    requires Sound(cfg, w) && LedgerOk(cfg, db') && |w.db.invoices| <= |db'.invoices|
    requires forall t :: t in tasks ==> t in w.tasks
    ensures Sound(cfg, World(db', tasks))
  {
    forall i | 0 <= i < |tasks|
      ensures TaskOk(cfg, db', tasks[i])
    {
      assert tasks[i] in w.tasks;
    }
  }

  lemma FinishSound(cfg: Config, w: World, i: nat, now: Instant, fault: Fault)
    requires Sound(cfg, w) && i < |w.tasks|
    ensures Sound(cfg, Next(cfg, w, Finish(i, now, fault))) && Grows(w.db, Next(cfg, w, Finish(i, now, fault)).db)
  {
    assert TaskOk(cfg, w.db, w.tasks[i]);
    match w.tasks[i]
    case FeeTask(id, kind, amount) => FeeSound(cfg, w.db, id, kind, amount, fault);
    case CloseTask(id, session) => CloseSound(cfg, w.db, id, session, now, fault);
    TasksLast(cfg, w, Next(cfg, w, Finish(i, now, fault)).db, Without(w.tasks, i));
  }

  lemma MoreTasks(cfg: Config, w: World, more: seq<Task>)
    requires Sound(cfg, w) && forall i :: 0 <= i < |more| ==> TaskOk(cfg, w.db, more[i])
    ensures Sound(cfg, World(w.db, w.tasks + more))
  {
  }

  lemma ReadSound(cfg: Config, w: World, a: Action)
    requires Sound(cfg, w) && (a.ReadForCancel? || a.ReadForNoShow? || a.ReadForCheckout?)
    ensures Sound(cfg, Next(cfg, w, a))
  {
    var more := Next(cfg, w, a).tasks[|w.tasks|..];
    assert Next(cfg, w, a).tasks == w.tasks + more;
    MoreTasks(cfg, w, more);
  }

  lemma NextSound(cfg: Config, w: World, a: Action)
    requires Sound(cfg, w)
    ensures Sound(cfg, Next(cfg, w, a)) && Grows(w.db, Next(cfg, w, a).db)
  {
    match a
    case OpenNow(reservation, driver, key, fault) =>
      OpenSound(cfg, w.db, reservation, driver, key, fault);
      TasksLast(cfg, w, Next(cfg, w, a).db, w.tasks);
    case CloseNow(id, session, now, fault) =>
      CloseSound(cfg, w.db, id, session, now, fault);
      TasksLast(cfg, w, Next(cfg, w, a).db, w.tasks);
    case Finish(i, now, fault) =>
      if i < |w.tasks| {
        FinishSound(cfg, w, i, now, fault);
      }
    case Abandon(i) =>
      if i < |w.tasks| {
        TasksLast(cfg, w, w.db, Without(w.tasks, i));
      }
    case ReadForCancel(_, _, _) => ReadSound(cfg, w, a);
    case ReadForNoShow(_) => ReadSound(cfg, w, a);
    case ReadForCheckout(_, _, _, _) => ReadSound(cfg, w, a);
  }

  lemma {:induction false} ExecSound(cfg: Config, w: World, actions: seq<Action>)
    requires Sound(cfg, w)
    ensures Sound(cfg, Exec(cfg, w, actions)) && Grows(w.db, Exec(cfg, w, actions).db)
  {
    if actions != [] {
      var init := actions[..|actions| - 1];
      ExecSound(cfg, w, init);
      NextSound(cfg, Exec(cfg, w, init), actions[|actions| - 1]);
    }
  }

  /* ---------- safety of every interleaving ---------- */

  predicate FitsInt64(n: int) {
    -0x8000_0000_0000_0000 <= n < 0x8000_0000_0000_0000
  }

  /** In every state any interleaving reaches, an invoice's stored total is the sum of
      its lines, equals what its outbox rows announce, and lies between the booking fee
      and the cap, so that nothing overflows when the cap fits 64 bits. */
  lemma InterleavingSafety(cfg: Config, actions: seq<Action>, id: nat)
    requires id < |Exec(cfg, INIT, actions).db.invoices|
    ensures
      var a := AccountOf(Exec(cfg, INIT, actions).db, id);
      && a.row.total == Sum(a.lines) == Announced(a.events)
      && cfg.booking <= a.row.total <= InvoiceCap(cfg)
      && (FitsInt64(InvoiceCap(cfg)) ==> FitsInt64(a.row.total) && forall i :: 0 <= i < |a.lines| ==> FitsInt64(a.lines[i].amount))
      && ShapeOk(a.lines)
      && (a.row.status == Closed || (a.row.status == Open && ParkingCount(a.lines) == 0))
      && (a.row.closedAt.Some? <==> a.row.status == Closed)
      && (a.row.status == Closed <==> HasClosing(a.events))
  {
    ExecSound(cfg, INIT, actions);
    MoneySummary(cfg, AccountOf(Exec(cfg, INIT, actions).db, id));
  }

  lemma MoneySummary(cfg: Config, a: Account)
    requires AccountOk(cfg, a)
    ensures cfg.booking <= a.row.total <= InvoiceCap(cfg)
    ensures FitsInt64(InvoiceCap(cfg)) ==>
              FitsInt64(a.row.total) && forall i :: 0 <= i < |a.lines| ==> FitsInt64(a.lines[i].amount)
  {
    MoneyBound(cfg, a);
    forall i | 0 <= i < |a.lines|
      ensures 0 <= a.lines[i].amount <= InvoiceCap(cfg)
    {
      assert LineOk(cfg, a.lines[i]);
    }
  }

  /** Lines, outbox rows and invoices are only ever added, from any point of any run to
      any later one. */
  lemma AppendOnly(cfg: Config, before: seq<Action>, after: seq<Action>)
    ensures Grows(Exec(cfg, INIT, before).db, Exec(cfg, INIT, before + after).db)
  {
    ExecSound(cfg, INIT, before);
    ExecConcat(cfg, INIT, before, after);
    ExecSound(cfg, Exec(cfg, INIT, before), after);
  }

  /* ---------- the freeze law ---------- */

  ghost predicate IsClosed(db: Tables, id: nat) {
    id < |db.invoices| && db.invoices[id].status == Closed
  }

  /** The account after a stretch of fees: each adds its line, its amount and one outbox
      row, and nothing else about the invoice changes. */
  function WithFees(a: Account, fees: seq<Line>): Account {
    Account(a.row.(total := a.row.total + Sum(fees)), a.lines + fees, a.events + FeeRows(fees))
  }

  function FeeRows(fees: seq<Line>): seq<Announcement> {
    seq(|fees|, i requires 0 <= i < |fees| => FeeAdded(fees[i].kind, fees[i].amount))
  }

  lemma NoFees(a: Account)
    ensures WithFees(a, []) == a
  {
  }

  lemma FeeRowsSnoc(fees: seq<Line>, l: Line)
    ensures FeeRows(fees + [l]) == FeeRows(fees) + [FeeAdded(l.kind, l.amount)]
  {
  }

  lemma ConcatSnoc<T>(s: seq<T>, t: seq<T>, x: T)
    ensures s + t + [x] == s + (t + [x])
  {
  }

  lemma OneMoreFee(a: Account, fees: seq<Line>, kind: LineKind, amount: int, b: Account)
    requires AddFee(WithFees(a, fees), kind, amount) == Some(b)
    ensures b == WithFees(a, fees + [Line(kind, amount)])
  {
    SumSnoc(fees, Line(kind, amount));
    FeeRowsSnoc(fees, Line(kind, amount));
    ConcatSnoc(a.lines, fees, Line(kind, amount));
    ConcatSnoc(a.events, FeeRows(fees), FeeAdded(kind, amount));
  }

  /** `b` is `a` after one fee of a handler that is waiting in `w`. */
  ghost predicate LateFee(w: World, id: nat, a: Account, b: Account) {
    exists t :: t in w.tasks && t.FeeTask? && t.invoice == id && AddFee(a, t.kind, t.amount) == Some(b)
  }

  lemma LateFeeTask(w: World, id: nat, a: Account, b: Account) returns (t: Task)
    requires LateFee(w, id, a, b)
    ensures t.FeeTask? && t in w.tasks && t == FeeTask(id, t.kind, t.amount)
    ensures AddFee(a, t.kind, t.amount) == Some(b)
  {
    t :| t in w.tasks && t.FeeTask? && t.invoice == id && AddFee(a, t.kind, t.amount) == Some(b);
  }

  lemma FreezeFinish(cfg: Config, w: World, i: nat, now: Instant, fault: Fault, id: nat)
    requires Sound(cfg, w) && IsClosed(w.db, id) && i < |w.tasks|
    ensures
      var db' := RunTask(cfg, w.db, w.tasks[i], now, fault).db;
      && IsClosed(db', id)
      && (AccountOf(db', id) == AccountOf(w.db, id) || LateFee(w, id, AccountOf(w.db, id), AccountOf(db', id)))
  {
    match w.tasks[i]
    case FeeTask(j, kind, amount) =>
      AppendActsOnOneAccount(w.db, j, Line(kind, amount), FeeAdded(kind, amount), fault);
      assert w.tasks[i] in w.tasks;
    case CloseTask(j, session) =>
      FreezeClose(cfg, w.db, j, session, now, fault, id);
  }

  lemma FreezeClose(cfg: Config, db: Tables, j: nat, s: Session, now: Instant, fault: Fault, id: nat)
    requires Integrity(db) && IsClosed(db, id)
    ensures IsClosed(CloseInvoice(cfg, db, j, s, now, fault).db, id)
    ensures AccountOf(CloseInvoice(cfg, db, j, s, now, fault).db, id) == AccountOf(db, id)
  {
    CloseActsOnOneAccount(db, j, DropFreeCancellation(Quote(cfg, s)), ClosedWith(Quote(cfg, s)), now, fault);
  }

  lemma FreezeOpen(cfg: Config, db: Tables, reservation: string, driver: string, key: string, fault: Fault, id: nat)
    requires Integrity(db) && IsClosed(db, id)
    ensures IsClosed(OpenInvoice(cfg, db, reservation, driver, key, fault).db, id)
    ensures AccountOf(OpenInvoice(cfg, db, reservation, driver, key, fault).db, id) == AccountOf(db, id)
  {
    OpenActsOnFreshAccount(db, reservation, driver, key, cfg.booking, Opened(cfg.booking), fault);
  }

  /** A step changes a closed invoice only by committing a fee whose handler was already
      past its read, and no new such handler appears. */
  lemma FreezeStep(cfg: Config, w: World, a: Action, id: nat)
    requires Sound(cfg, w) && IsClosed(w.db, id)
    ensures
      var w' := Next(cfg, w, a);
      && IsClosed(w'.db, id)
      && (AccountOf(w'.db, id) == AccountOf(w.db, id) || LateFee(w, id, AccountOf(w.db, id), AccountOf(w'.db, id)))
      && (forall t :: t in w'.tasks && t.FeeTask? && t.invoice == id ==> t in w.tasks)
  {
    match a
    case OpenNow(reservation, driver, key, fault) => FreezeOpen(cfg, w.db, reservation, driver, key, fault, id);
    case CloseNow(j, session, now, fault) => FreezeClose(cfg, w.db, j, session, now, fault, id);
    case Finish(i, now, fault) =>
      if i < |w.tasks| {
        FreezeFinish(cfg, w, i, now, fault, id);
      }
    case ReadForCancel(_, _, _) =>
    case ReadForNoShow(_) =>
    case ReadForCheckout(_, _, _, _) =>
    case Abandon(_) =>
  }

  /** After an invoice is closed, a run of any length can only add to it lines of fee
      handlers that were waiting when it was closed. */
  lemma {:induction false} FreezeRun(cfg: Config, w: World, actions: seq<Action>, id: nat) returns (extra: seq<Line>)
    requires Sound(cfg, w) && IsClosed(w.db, id)
    ensures
      var w' := Exec(cfg, w, actions);
      && IsClosed(w'.db, id)
      && AccountOf(w'.db, id) == WithFees(AccountOf(w.db, id), extra)
      && (forall i :: 0 <= i < |extra| ==> FeeTask(id, extra[i].kind, extra[i].amount) in w.tasks)
      && (forall t :: t in w'.tasks && t.FeeTask? && t.invoice == id ==> t in w.tasks)
  {
    if actions == [] {
      extra := [];
      NoFees(AccountOf(w.db, id));
    } else {
      var init := actions[..|actions| - 1];
      var mid := Exec(cfg, w, init);
      extra := FreezeRun(cfg, w, init, id);
      ExecSound(cfg, w, init);
      var more := FreezeOne(cfg, mid, actions[|actions| - 1], id, AccountOf(w.db, id), extra);
      extra := extra + more;
    }
  }

  lemma FreezeOne(cfg: Config, w: World, a: Action, id: nat, start: Account, extra: seq<Line>) returns (more: seq<Line>)
    requires Sound(cfg, w) && IsClosed(w.db, id) && AccountOf(w.db, id) == WithFees(start, extra)
    ensures
      var w' := Next(cfg, w, a);
      && IsClosed(w'.db, id)
      && AccountOf(w'.db, id) == WithFees(start, extra + more)
      && (forall i :: 0 <= i < |more| ==> FeeTask(id, more[i].kind, more[i].amount) in w.tasks)
      && (forall t :: t in w'.tasks && t.FeeTask? && t.invoice == id ==> t in w.tasks)
  {
    FreezeStep(cfg, w, a, id);
    var before, after := AccountOf(w.db, id), AccountOf(Next(cfg, w, a).db, id);
    if after == before {
      more := [];
      assert extra + more == extra;
    } else {
      var t := LateFeeTask(w, id, before, after);
      OneMoreFee(start, extra, t.kind, t.amount, after);
      more := [Line(t.kind, t.amount)];
    }
  }

  /** With no fee handler waiting on it, a closed invoice never changes in any respect. */
  lemma {:induction false} FrozenWithoutWaitingFees(cfg: Config, w: World, actions: seq<Action>, id: nat)
    requires Sound(cfg, w) && IsClosed(w.db, id)
    requires forall t :: t in w.tasks ==> !(t.FeeTask? && t.invoice == id)
    ensures IsClosed(Exec(cfg, w, actions).db, id)
    ensures AccountOf(Exec(cfg, w, actions).db, id) == AccountOf(w.db, id)
    ensures forall t :: t in Exec(cfg, w, actions).tasks ==> !(t.FeeTask? && t.invoice == id)
  {
    if actions != [] {
      var init := actions[..|actions| - 1];
      FrozenWithoutWaitingFees(cfg, w, init, id);
      ExecSound(cfg, w, init);
      FreezeStep(cfg, Exec(cfg, w, init), actions[|actions| - 1], id);
    }
  }

  /** The lines added after the close are cancellation and no-show fees, at most one of
      each, of kinds the invoice did not have yet. */
  lemma LateLinesAreDistinctFees(cfg: Config, w: World, actions: seq<Action>, id: nat) returns (extra: seq<Line>)
    requires Sound(cfg, w) && IsClosed(w.db, id)
    ensures IsClosed(Exec(cfg, w, actions).db, id)
    ensures AccountOf(Exec(cfg, w, actions).db, id) == WithFees(AccountOf(w.db, id), extra)
    ensures forall i :: 0 <= i < |extra| ==> FeeTask(id, extra[i].kind, extra[i].amount) in w.tasks
    ensures forall i :: 0 <= i < |extra| ==> OneOff(extra[i].kind) && !HasKind(AccountOf(w.db, id).lines, extra[i].kind)
    ensures forall i, j :: 0 <= i < j < |extra| ==> extra[i].kind != extra[j].kind
  {
    extra := FreezeRun(cfg, w, actions, id);
    WaitingFeesAreOneOff(cfg, w, id, extra);
    ExecSound(cfg, w, actions);
    assert AccountOk(cfg, AccountOf(Exec(cfg, w, actions).db, id));
    AddedKindsDiffer(AccountOf(w.db, id).lines, extra);
  }

  lemma WaitingFeesAreOneOff(cfg: Config, w: World, id: nat, extra: seq<Line>)
    requires Sound(cfg, w)
    requires forall i :: 0 <= i < |extra| ==> FeeTask(id, extra[i].kind, extra[i].amount) in w.tasks
    ensures forall i :: 0 <= i < |extra| ==> OneOff(extra[i].kind)
  {
    forall i | 0 <= i < |extra|
      ensures OneOff(extra[i].kind)
    {
      var k :| 0 <= k < |w.tasks| && w.tasks[k] == FeeTask(id, extra[i].kind, extra[i].amount);
      assert TaskOk(cfg, w.db, w.tasks[k]);
    }
  }

  lemma AddedKindsDiffer(lines: seq<Line>, extra: seq<Line>)
    requires ShapeOk(lines + extra) && forall i :: 0 <= i < |extra| ==> OneOff(extra[i].kind)
    ensures forall i :: 0 <= i < |extra| ==> !HasKind(lines, extra[i].kind)
    ensures forall i, j :: 0 <= i < j < |extra| ==> extra[i].kind != extra[j].kind
  {
    forall i | 0 <= i < |extra|
      ensures !HasKind(lines, extra[i].kind)
    {
      if HasKind(lines, extra[i].kind) {
        var j :| 0 <= j < |lines| && lines[j].kind == extra[i].kind;
        OneOffKindsDiffer(lines + extra, j, |lines| + i);
        assert false;
      }
    }
    forall i, j | 0 <= i < j < |extra|
      ensures extra[i].kind != extra[j].kind
    {
      OneOffKindsDiffer(lines + extra, |lines| + i, |lines| + j);
    }
  }

  lemma {:induction false} CountTwo(lines: seq<Line>, i: nat, j: nat, k: LineKind)
    requires i < j < |lines| && lines[i].kind == lines[j].kind == k
    ensures Count(lines, k) >= 2
  {
    var init := lines[..|lines| - 1];
    if j == |lines| - 1 {
      assert init[i].kind == k;
      CountPositiveIffHasKind(init, k);
    } else {
      CountTwo(init, i, j, k);
    }
  }

  lemma OneOffKindsDiffer(lines: seq<Line>, i: nat, j: nat)
    requires ShapeOk(lines) && i < j < |lines| && OneOff(lines[i].kind)
    ensures lines[i].kind != lines[j].kind
  {
    if lines[i].kind == lines[j].kind {
      CountTwo(lines, i, j, lines[i].kind);
    }
  }

  ghost predicate ChangesAfter(cfg: Config, w: World, actions: seq<Action>, id: nat)
    requires IsClosed(w.db, id)
  {
    IsClosed(Exec(cfg, w, actions).db, id) && AccountOf(Exec(cfg, w, actions).db, id) != AccountOf(w.db, id)
  }

  /** A fee handler is waiting with a kind that the invoice does not carry yet. */
  ghost predicate LateFeeWaits(w: World, t: Task, id: nat)
    requires id < |w.db.invoices|
  {
    t in w.tasks && t.FeeTask? && t.invoice == id && !HasKind(AccountOf(w.db, id).lines, t.kind)
  }

  lemma LateFeeCommits(cfg: Config, w: World, t: Task, id: nat) returns (actions: seq<Action>)
    requires Sound(cfg, w) && IsClosed(w.db, id) && LateFeeWaits(w, t, id)
    ensures ChangesAfter(cfg, w, actions, id)
  {
    var i :| 0 <= i < |w.tasks| && w.tasks[i] == t;
    actions := [Finish(i, 0, Healthy)];
    assert actions[..0] == [];
    assert Exec(cfg, w, actions) == Next(cfg, w, Finish(i, 0, Healthy));
    FreezeStep(cfg, w, Finish(i, 0, Healthy), id);
    AppendActsOnOneAccount(w.db, id, Line(t.kind, t.amount), FeeAdded(t.kind, t.amount), Healthy);
    assert |AccountOf(Exec(cfg, w, actions).db, id).lines| == |AccountOf(w.db, id).lines| + 1;
  }

  /** Exactly when a closed invoice can still change: some waiting fee handler holds a
      kind the invoice lacks. */
  lemma ClosedCanChangeIff(cfg: Config, w: World, id: nat)
    requires Sound(cfg, w) && IsClosed(w.db, id)
    ensures (exists actions :: ChangesAfter(cfg, w, actions, id)) <==> (exists t :: LateFeeWaits(w, t, id))
  {
    if t :| LateFeeWaits(w, t, id) {
      var actions := LateFeeCommits(cfg, w, t, id);
      assert ChangesAfter(cfg, w, actions, id);
    }
    if actions :| ChangesAfter(cfg, w, actions, id) {
      var extra := LateLinesAreDistinctFees(cfg, w, actions, id);
      NoFees(AccountOf(w.db, id));
      assert LateFeeWaits(w, FeeTask(id, extra[0].kind, extra[0].amount), id);
    }
  }

  /** Action `a` is the status read of a fee handler for `reservation` that will append
      `fee`: the post-grace cancellation fee of its two times, or the no-show tariff. */
  predicate ReadsFor(cfg: Config, a: Action, reservation: string, fee: Line) {
    match a
    case ReadForCancel(r, confirmedAt, cancelledAt) =>
      r == reservation && fee == Line(Cancellation, CancelFee(cfg, confirmedAt, cancelledAt)) && fee.amount != 0
    case ReadForNoShow(r) => r == reservation && fee == Line(NoShow, cfg.noShow)
    case _ => false
  }

  /** Step `k` is the read behind `fee` of invoice `id`, and finds that invoice OPEN. */
  ghost predicate ReadsOpen(cfg: Config, actions: seq<Action>, k: nat, id: nat, reservation: string, fee: Line)
    requires k < |actions|
  {
    var seen := Exec(cfg, INIT, actions[..k]).db;
    && ReadsFor(cfg, actions[k], reservation, fee)
    && FindInvoice(seen, reservation) == Found(id)
    && seen.invoices[id].status == Open
  }

  /** Step `readAt[i]` is the read behind `fees[i]`. */
  ghost predicate AllRead(cfg: Config, actions: seq<Action>, id: nat, reservation: string, fees: seq<Line>, readAt: seq<nat>) {
    && |readAt| == |fees|
    && forall i :: 0 <= i < |readAt| ==>
         readAt[i] < |actions| && ReadsOpen(cfg, actions, readAt[i], id, reservation, fees[i])
  }

  /** A fee handler that starts waiting has just read its invoice as OPEN. */
  lemma NewFeeTaskReadOpen(cfg: Config, w: World, a: Action, t: Task)
    requires t.FeeTask? && t in Next(cfg, w, a).tasks && t !in w.tasks
    ensures t.invoice < |w.db.invoices| && w.db.invoices[t.invoice].status == Open
    ensures ReadsFor(cfg, a, w.db.invoices[t.invoice].reservation, Line(t.kind, t.amount))
    ensures FindInvoice(w.db, w.db.invoices[t.invoice].reservation) == Found(t.invoice)
  {
  }

  /** A waiting fee handler read the invoice as OPEN earlier in the run. */
  lemma {:induction false} WaitingFeeReadOpen(cfg: Config, actions: seq<Action>, t: Task) returns (k: nat)
    requires t.FeeTask? && t in Exec(cfg, INIT, actions).tasks
    ensures k < |actions| && t.invoice < |Exec(cfg, INIT, actions).db.invoices|
    ensures ReadsOpen(cfg, actions, k, t.invoice, Exec(cfg, INIT, actions).db.invoices[t.invoice].reservation,
                      Line(t.kind, t.amount))
  {
    var init, last := actions[..|actions| - 1], actions[|actions| - 1];
    var w := Exec(cfg, INIT, init);
    if t in w.tasks {
      k := WaitingFeeReadOpen(cfg, init, t);
      assert actions[..k] == init[..k];
    } else {
      k := |actions| - 1;
      NewFeeTaskReadOpen(cfg, w, last, t);
    }
    ExecSound(cfg, INIT, init);
    ReservationStays(cfg, w, last, t.invoice);
  }

  lemma ReservationStays(cfg: Config, w: World, a: Action, id: nat)
    requires Sound(cfg, w) && id < |w.db.invoices|
    ensures id < |Next(cfg, w, a).db.invoices|
    ensures Next(cfg, w, a).db.invoices[id].reservation == w.db.invoices[id].reservation
  {
    NextSound(cfg, w, a);
    assert Continues(AccountOf(w.db, id), AccountOf(Next(cfg, w, a).db, id));
  }

  /** The freeze law over whole runs: what happens to an invoice after it was seen closed
      is a stretch of cancellation and no-show fees, at most one of each, that changes its
      lines, total and outbox rows by those fees and nothing else. Behind each fee stands
      its own handler, which read this invoice's reservation as OPEN in the part of the
      run before. */
  lemma LateLinesWereReadOpen(cfg: Config, before: seq<Action>, after: seq<Action>, id: nat)
    returns (extra: seq<Line>, readAt: seq<nat>)
    requires IsClosed(Exec(cfg, INIT, before).db, id)
    ensures IsClosed(Exec(cfg, INIT, before + after).db, id)
    ensures AccountOf(Exec(cfg, INIT, before + after).db, id) == WithFees(AccountOf(Exec(cfg, INIT, before).db, id), extra)
    ensures forall i :: 0 <= i < |extra| ==> OneOff(extra[i].kind)
    ensures forall i, j :: 0 <= i < j < |extra| ==> extra[i].kind != extra[j].kind
    ensures AllRead(cfg, before, id, Exec(cfg, INIT, before).db.invoices[id].reservation, extra, readAt)
    ensures forall i, j :: 0 <= i < j < |readAt| ==> readAt[i] != readAt[j]
  {
    ExecSound(cfg, INIT, before);
    ExecConcat(cfg, INIT, before, after);
    extra := LateLinesAreDistinctFees(cfg, Exec(cfg, INIT, before), after, id);
    readAt := ReadsBehind(cfg, before, id, extra);
    ReadsDiffer(cfg, before, id, Exec(cfg, INIT, before).db.invoices[id].reservation, extra, readAt);
  }

  /** The reads behind a stretch of waiting fees. */
  lemma ReadsBehind(cfg: Config, actions: seq<Action>, id: nat, fees: seq<Line>) returns (readAt: seq<nat>)
    requires id < |Exec(cfg, INIT, actions).db.invoices|
    requires forall i :: 0 <= i < |fees| ==> FeeTask(id, fees[i].kind, fees[i].amount) in Exec(cfg, INIT, actions).tasks
    ensures AllRead(cfg, actions, id, Exec(cfg, INIT, actions).db.invoices[id].reservation, fees, readAt)
  {
    var reservation := Exec(cfg, INIT, actions).db.invoices[id].reservation;
    readAt := [];
    for n := 0 to |fees|
      invariant AllRead(cfg, actions, id, reservation, fees[..n], readAt)
    {
      var k := WaitingFeeReadOpen(cfg, actions, FeeTask(id, fees[n].kind, fees[n].amount));
      readAt := readAt + [k];
    }
    assert fees[..|fees|] == fees;
  }

  lemma ReadsDiffer(cfg: Config, actions: seq<Action>, id: nat, reservation: string, fees: seq<Line>, readAt: seq<nat>)
    requires AllRead(cfg, actions, id, reservation, fees, readAt)
    requires forall i, j :: 0 <= i < j < |fees| ==> fees[i].kind != fees[j].kind
    ensures forall i, j :: 0 <= i < j < |readAt| ==> readAt[i] != readAt[j]
  {
  }

  /** The ledger after the first open. */
  function Booked(cfg: Config, reservation: string, driver: string): Tables {
    Tables([Invoice(reservation, driver, Open, cfg.booking, reservation, None)],
           [Row(0, Line(Booking, cfg.booking))], [Row(0, Opened(cfg.booking))])
  }

  lemma FirstOpenResult(cfg: Config, reservation: string, driver: string)
    requires ValidUuid(reservation)
    ensures OpenInvoice(cfg, EMPTY, reservation, driver, reservation, Healthy) == Result(Booked(cfg, reservation, driver), Ok(0))
  {
    UuidIsNotBlank(reservation);
    assert ByReservation(EMPTY.invoices, reservation).None? && ByKey(EMPTY.invoices, reservation).None?;
  }

  lemma FirstOpen(cfg: Config, reservation: string, driver: string)
    requires ValidUuid(reservation)
    ensures OpenInvoice(cfg, EMPTY, reservation, driver, reservation, Healthy) == Result(Booked(cfg, reservation, driver), Ok(0))
    ensures FindInvoice(Booked(cfg, reservation, driver), reservation) == Found(0)
    ensures LedgerOk(cfg, Booked(cfg, reservation, driver))
    ensures AccountOf(Booked(cfg, reservation, driver), 0)
         == OpenAccount(reservation, driver, reservation, cfg.booking, Opened(cfg.booking))
  {
    FirstOpenResult(cfg, reservation, driver);
    OpenSound(cfg, EMPTY, reservation, driver, reservation, Healthy);
    ReservationFindsInvoice(Booked(cfg, reservation, driver), 0);
    FirstRow([], 0, Line(Booking, cfg.booking));
    FirstRow([], 0, Opened(cfg.booking));
  }

  /** The documented rule that a closed invoice takes no more fees fails: a no-show
      handler that reads the status before the close, of any stay, commits its line
      after it. */
  lemma LateFeeAfterClose(cfg: Config, reservation: string, driver: string, s: Session, now: Instant)
    requires ValidUuid(reservation) && Plain(s)
    ensures Next(cfg, INIT, OpenNow(reservation, driver, reservation, Healthy)) == World(Booked(cfg, reservation, driver), [])
    ensures
      var read := Next(cfg, World(Booked(cfg, reservation, driver), []), ReadForNoShow(reservation));
      var closed := Next(cfg, read, CloseNow(0, s, now, Healthy));
      var late := Next(cfg, closed, Finish(0, now, Healthy));
      && IsClosed(closed.db, 0) && IsClosed(late.db, 0)
      && AccountOf(late.db, 0).lines == AccountOf(closed.db, 0).lines + [Line(NoShow, cfg.noShow)]
      && late.db.invoices[0].total == closed.db.invoices[0].total + cfg.noShow
  {
    var db := Booked(cfg, reservation, driver);
    FirstOpen(cfg, reservation, driver);
    ReadBooked(cfg, db, reservation);
    LateFinish(cfg, db, s, now);
  }

  lemma LateFinish(cfg: Config, db: Tables, s: Session, now: Instant)
    requires LedgerOk(cfg, db) && 0 < |db.invoices| && db.invoices[0].status == Open
    requires AccountOf(db, 0).lines == [Line(Booking, cfg.booking)] && Plain(s)
    ensures
      var closed := Next(cfg, World(db, [FeeTask(0, NoShow, cfg.noShow)]), CloseNow(0, s, now, Healthy));
      var late := Next(cfg, closed, Finish(0, now, Healthy));
      && IsClosed(closed.db, 0) && IsClosed(late.db, 0)
      && AccountOf(late.db, 0).lines == AccountOf(closed.db, 0).lines + [Line(NoShow, cfg.noShow)]
      && late.db.invoices[0].total == closed.db.invoices[0].total + cfg.noShow
  {
    CloseThenFee(cfg, db, 0, s, now);
  }

  lemma ReadBooked(cfg: Config, db: Tables, reservation: string)
    requires FindInvoice(db, reservation) == Found(0) && db.invoices[0].status == Open
    ensures Next(cfg, World(db, []), ReadForNoShow(reservation)) == World(db, [FeeTask(0, NoShow, cfg.noShow)])
  {
  }

  lemma CloseThenFee(cfg: Config, db: Tables, id: nat, s: Session, now: Instant)
    requires LedgerOk(cfg, db) && id < |db.invoices| && db.invoices[id].status == Open
    requires AccountOf(db, id).lines == [Line(Booking, cfg.booking)] && Plain(s)
    ensures
      var closed := CloseInvoice(cfg, db, id, s, now, Healthy).db;
      var late := AppendTx(closed, id, Line(NoShow, cfg.noShow), FeeAdded(NoShow, cfg.noShow), Healthy).db;
      && IsClosed(closed, id) && IsClosed(late, id)
      && AccountOf(late, id).lines == AccountOf(closed, id).lines + [Line(NoShow, cfg.noShow)]
      && late.invoices[id].total == closed.invoices[id].total + cfg.noShow
  {
    CloseActsOnOneAccount(db, id, DropFreeCancellation(Quote(cfg, s)), ClosedWith(Quote(cfg, s)), now, Healthy);
    ClosingInsertsOneLine(cfg, AccountOf(db, id).lines, s);
    ClosingLineOk(cfg, s);
    var closed := CloseInvoice(cfg, db, id, s, now, Healthy).db;
    AppendActsOnOneAccount(closed, id, Line(NoShow, cfg.noShow), FeeAdded(NoShow, cfg.noShow), Healthy);
  }

  /* ---------- conservation of outbox rows ---------- */

  predicate Plain(s: Session) {
    s.cancelledAt.None? && !s.noShow
  }

  /** One opened row, and one closed row for each fee line and for the close itself. */
  predicate Conserved(a: Account) {
    |a.events| == 1 + Count(a.lines, Cancellation) + Count(a.lines, NoShow) + if a.row.status == Closed then 1 else 0
  }

  ghost predicate Balanced(w: World) {
    && AllConserved(w.db)
    && (forall i :: 0 <= i < |w.tasks| && w.tasks[i].CloseTask? ==> Plain(w.tasks[i].session))
  }

  predicate PlainAction(a: Action) {
    a.CloseNow? ==> Plain(a.session)
  }

  lemma CloseConserves(cfg: Config, a: Account, s: Session, now: Instant)
    requires AccountOk(cfg, a) && Conserved(a) && Plain(s)
    ensures CloseSession(cfg, a, s, now).Some? && Conserved(CloseSession(cfg, a, s, now).value)
  {
    ClosingInsertsOneLine(cfg, a.lines, s);
    ClosingLineOk(cfg, s);
    if ClosingLine(cfg, s).Some? {
      SumSnoc(a.lines, ClosingLine(cfg, s).value);
    }
  }

  ghost predicate AllConserved(db: Tables) {
    forall i :: 0 <= i < |db.invoices| ==> Conserved(AccountOf(db, i))
  }

  lemma OpenBalanced(cfg: Config, db: Tables, reservation: string, driver: string, key: string, fault: Fault)
    requires LedgerOk(cfg, db) && AllConserved(db)
    ensures AllConserved(OpenInvoice(cfg, db, reservation, driver, key, fault).db)
  {
    OpenActsOnFreshAccount(db, reservation, driver, key, cfg.booking, Opened(cfg.booking), fault);
    OpenConserves(cfg, reservation, driver, key);
  }

  lemma OpenConserves(cfg: Config, reservation: string, driver: string, key: string)
    ensures Conserved(OpenAccount(reservation, driver, key, cfg.booking, Opened(cfg.booking)))
  {
    OneLine(Line(Booking, cfg.booking));
  }

  lemma FeeBalanced(cfg: Config, db: Tables, id: nat, kind: LineKind, amount: int, fault: Fault)
    requires LedgerOk(cfg, db) && AllConserved(db) && id < |db.invoices| && OneOff(kind)
    ensures AllConserved(AppendTx(db, id, Line(kind, amount), FeeAdded(kind, amount), fault).db)
  {
    AppendActsOnOneAccount(db, id, Line(kind, amount), FeeAdded(kind, amount), fault);
    SumSnoc(AccountOf(db, id).lines, Line(kind, amount));
  }

  lemma NextBalanced(cfg: Config, w: World, a: Action)
    requires Sound(cfg, w) && Balanced(w) && PlainAction(a)
    ensures Balanced(Next(cfg, w, a))
  {
    match a
    case OpenNow(reservation, driver, key, fault) => OpenBalanced(cfg, w.db, reservation, driver, key, fault);
    case CloseNow(id, session, now, fault) => CloseBalanced(cfg, w.db, id, session, now, fault);
    case Finish(i, now, fault) =>
      if i < |w.tasks| {
        assert TaskOk(cfg, w.db, w.tasks[i]);
        match w.tasks[i]
        case FeeTask(id, kind, amount) => FeeBalanced(cfg, w.db, id, kind, amount, fault);
        case CloseTask(id, session) => CloseBalanced(cfg, w.db, id, session, now, fault);
      }
    case ReadForCancel(_, _, _) =>
    case ReadForNoShow(_) =>
    case ReadForCheckout(_, _, _, _) =>
    case Abandon(_) =>
  }

  lemma CloseBalanced(cfg: Config, db: Tables, id: nat, s: Session, now: Instant, fault: Fault)
    requires LedgerOk(cfg, db) && Plain(s) && AllConserved(db)
    ensures AllConserved(CloseInvoice(cfg, db, id, s, now, fault).db)
  {
    CloseActsOnOneAccount(db, id, DropFreeCancellation(Quote(cfg, s)), ClosedWith(Quote(cfg, s)), now, fault);
    if id < |db.invoices| {
      CloseConserves(cfg, AccountOf(db, id), s, now);
    }
  }

  /** When closing sessions carry neither a cancellation nor a no-show, every invoice of
      every reachable state has exactly one opened row and one closed row per
      cancellation line, per no-show line and for its own close. */
  lemma {:induction false} OutboxConservation(cfg: Config, actions: seq<Action>)
    requires forall i :: 0 <= i < |actions| ==> PlainAction(actions[i])
    ensures Balanced(Exec(cfg, INIT, actions))
    ensures forall i :: 0 <= i < |Exec(cfg, INIT, actions).db.invoices| ==>
              EventsOk(cfg, AccountOf(Exec(cfg, INIT, actions).db, i).events)
  {
    ExecSound(cfg, INIT, actions);
    if actions != [] {
      var init := actions[..|actions| - 1];
      OutboxConservation(cfg, init);
      ExecSound(cfg, INIT, init);
      NextBalanced(cfg, Exec(cfg, INIT, init), actions[|actions| - 1]);
    }
  }
}
