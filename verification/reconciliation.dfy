/** What a reader of the broker can reconstruct: once every visible row has been
    published, the log with repeats removed adds up to every invoice's stored total. */
module Reconciliation {
  import opened Pricing
  import opened Accounts
  import opened Ledger
  import opened Billing
  import Interleaving
  import Delivery
  import Publisher
  import opened Chain

  /* ---------- adding up the log ---------- */

  function WorthFor(row: Row<Announcement>, v: nat): int {
    if row.invoice == v then Worth(row.value) else 0
  }

  /** Worth, to invoice v, of the outbox row with a given id; row k has id ids[k]. */
  function RowWorth(outbox: seq<Row<Announcement>>, ids: seq<nat>, id: nat, v: nat): int
    requires |ids| == |outbox|
  {
    if ids == [] then 0
    else
      var n := |ids| - 1;
      if ids[n] == id then WorthFor(outbox[n], v) else RowWorth(outbox[..n], ids[..n], id, v)
  }

  /** What a log of row ids says about invoice v. */
  function Told(outbox: seq<Row<Announcement>>, ids: seq<nat>, log: seq<nat>, v: nat): int
    requires |ids| == |outbox|
  {
    if log == [] then 0
    else Told(outbox, ids, log[..|log| - 1], v) + RowWorth(outbox, ids, log[|log| - 1], v)
  }

  lemma {:induction false} ToldIgnoresLastRow(outbox: seq<Row<Announcement>>, ids: seq<nat>, log: seq<nat>, v: nat)
    requires |ids| == |outbox| > 0 && ids[|ids| - 1] !in log
    ensures Told(outbox, ids, log, v) == Told(outbox[..|ids| - 1], ids[..|ids| - 1], log, v)
  {
    if log != [] {
      assert log[|log| - 1] in log;
      ToldIgnoresLastRow(outbox, ids, log[..|log| - 1], v);
    }
  }

  /** Read once each, the rows tell of an invoice what its own events announce. */
  lemma {:induction false} ToldByAllRows(outbox: seq<Row<Announcement>>, ids: seq<nat>, v: nat)
    requires |ids| == |outbox| && Distinct(ids)
    ensures Told(outbox, ids, ids, v) == Announced(Of(outbox, v))
  {
    if ids != [] {
      var n := |ids| - 1;
      ToldByAllRows(outbox[..n], ids[..n], v);
      ToldIgnoresLastRow(outbox, ids, ids[..n], v);
      assert Told(outbox, ids, ids, v) == Told(outbox, ids, ids[..n], v) + WorthFor(outbox[n], v);
      assert outbox == outbox[..n] + [outbox[n]];
      OfSnoc(outbox[..n], outbox[n], v);
      AnnouncedSnoc(Of(outbox[..n], v), outbox[n].value);
    }
  }

  lemma {:induction false} ToldWithout(outbox: seq<Row<Announcement>>, ids: seq<nat>, log: seq<nat>, v: nat, j: nat)
    requires |ids| == |outbox| && j < |log|
    ensures Told(outbox, ids, log, v) == Told(outbox, ids, log[..j] + log[j + 1..], v) + RowWorth(outbox, ids, log[j], v)
  {
    var n := |log| - 1;
    var rest := log[..j] + log[j + 1..];
    if j == n {
      assert rest == log[..n];
    } else {
      ToldWithout(outbox, ids, log[..n], v, j);
      assert rest[..|rest| - 1] == log[..n][..j] + log[..n][j + 1..];
      assert rest[|rest| - 1] == log[n];
    }
  }

  lemma Remove(s: seq<nat>, j: nat)
    requires j < |s|
    ensures multiset(s) == multiset(s[..j] + s[j + 1..]) + multiset{s[j]}
  {
    assert s == s[..j] + [s[j]] + s[j + 1..];
  }

  lemma CancelOne(a: multiset<nat>, b: multiset<nat>, x: nat)
    requires a + multiset{x} == b + multiset{x}
    ensures a == b
  {
    assert a == a + multiset{x} - multiset{x};
    assert b == b + multiset{x} - multiset{x};
  }

  /** The order of a log does not matter to what it tells. */
  lemma {:induction false} ToldIgnoresOrder(outbox: seq<Row<Announcement>>, ids: seq<nat>, a: seq<nat>, b: seq<nat>, v: nat)
    requires |ids| == |outbox| && multiset(a) == multiset(b)
    ensures Told(outbox, ids, a, v) == Told(outbox, ids, b, v)
    decreases |a|
  {
    if a == [] {
      assert |multiset(b)| == |b|;
    } else {
      var n, x := |a| - 1, a[|a| - 1];
      assert x in multiset(a);
      var j :| 0 <= j < |b| && b[j] == x;
      var rest := b[..j] + b[j + 1..];
      Remove(a, n);
      assert a[..n] + a[n + 1..] == a[..n];
      Remove(b, j);
      CancelOne(multiset(a[..n]), multiset(rest), x);
      ToldIgnoresOrder(outbox, ids, a[..n], rest, v);
      ToldWithout(outbox, ids, b, v, j);
    }
  }

  lemma {:induction false} DistinctCounts(s: seq<nat>, x: nat)
    requires Distinct(s)
    ensures multiset(s)[x] == if x in s then 1 else 0
  {
    if s != [] {
      var init, last := s[..|s| - 1], s[|s| - 1];
      assert s == init + [last];
      DistinctCounts(init, x);
    }
  }

  lemma DistinctSame(a: seq<nat>, b: seq<nat>)
    requires Distinct(a) && Distinct(b) && forall x :: x in a <==> x in b
    ensures multiset(a) == multiset(b)
  {
    forall x | x in multiset(a) + multiset(b)
      ensures multiset(a)[x] == multiset(b)[x]
    {
      DistinctCounts(a, x);
      DistinctCounts(b, x);
    }
    assert forall x :: x in multiset(a) <==> x in multiset(b);
  }

  /* ---------- a log that also carries payment rows ---------- */

  /** The entries of a log that have an id in `ids`. */
  function Keep(log: seq<nat>, ids: seq<nat>): seq<nat> {
    if log == [] then []
    else
      var init, last := Keep(log[..|log| - 1], ids), log[|log| - 1];
      if last in ids then init + [last] else init
  }

  lemma {:induction false} ForeignRowIsWorthless(outbox: seq<Row<Announcement>>, ids: seq<nat>, id: nat, v: nat)
    requires |ids| == |outbox| && id !in ids
    ensures RowWorth(outbox, ids, id, v) == 0
  {
    if ids != [] {
      ForeignRowIsWorthless(outbox[..|ids| - 1], ids[..|ids| - 1], id, v);
    }
  }

  lemma {:induction false} ToldKeeps(outbox: seq<Row<Announcement>>, ids: seq<nat>, log: seq<nat>, v: nat)
    requires |ids| == |outbox|
    ensures Told(outbox, ids, log, v) == Told(outbox, ids, Keep(log, ids), v)
  {
    if log != [] {
      var init, last := log[..|log| - 1], log[|log| - 1];
      ToldKeeps(outbox, ids, init, v);
      if last in ids {
        assert (Keep(init, ids) + [last])[..|Keep(init, ids)|] == Keep(init, ids);
      } else {
        ForeignRowIsWorthless(outbox, ids, last, v);
      }
    }
  }

  lemma {:induction false} KeepMembers(log: seq<nat>, ids: seq<nat>)
    ensures forall x :: x in Keep(log, ids) <==> x in log && x in ids
  {
    if log != [] {
      KeepMembers(log[..|log| - 1], ids);
      assert log == log[..|log| - 1] + [log[|log| - 1]];
    }
  }

  lemma {:induction false} KeepIsDistinct(log: seq<nat>, ids: seq<nat>)
    requires Distinct(log)
    ensures Distinct(Keep(log, ids))
  {
    if log != [] {
      var init, last := log[..|log| - 1], log[|log| - 1];
      KeepIsDistinct(init, ids);
      KeepMembers(init, ids);
      if last in ids {
        DistinctSnoc(Keep(init, ids), last);
      }
    }
  }

  /** Every visible row has reached the broker. */
  ghost predicate Drained(c: System) {
    forall x :: x in c.pub.committed ==> x in c.pub.log
  }

  /** In every state of every run in which all visible rows have reached the broker, the
      deduplicated log adds up to the stored total of every invoice, although rows were
      committed out of order, mixed with payment rows, published twice and marked late. */
  lemma DrainedLogTellsEveryTotal(cfg: Config, events: seq<Event>, v: nat)
    requires v < |Run(cfg, events).db.invoices| && Drained(Run(cfg, events))
    ensures
      var c := Run(cfg, events);
      && |c.ledgerIds| == |c.db.outbox|
      && Told(c.db.outbox, c.ledgerIds, Publisher.First(c.pub.log), v) == c.db.invoices[v].total
  {
    var c := Run(cfg, events);
    RunCausal(cfg, events);
    RunLawful(cfg, events);
    assert AccountOk(cfg, AccountOf(c.db, v));
    var seen := Publisher.First(c.pub.log);
    var mine := Keep(seen, c.ledgerIds);
    Publisher.FirstIsDistinct(c.pub.log);
    Publisher.FirstMembers(c.pub.log);
    ToldKeeps(c.db.outbox, c.ledgerIds, seen, v);
    KeepIsDistinct(seen, c.ledgerIds);
    KeepMembers(seen, c.ledgerIds);
    DistinctSame(mine, c.ledgerIds);
    ToldIgnoresOrder(c.db.outbox, c.ledgerIds, mine, c.ledgerIds, v);
    ToldByAllRows(c.db.outbox, c.ledgerIds, v);
  }

  /* ---------- from an acknowledgement to the broker ---------- */

  lemma {:induction false} RowOfEvent(rows: seq<Row<Announcement>>, v: nat, i: nat) returns (k: nat)
    requires i < |Of(rows, v)|
    ensures k < |rows| && rows[k] == Row(v, Of(rows, v)[i])
  {
    var n := |rows| - 1;
    if i < |Of(rows[..n], v)| {
      k := RowOfEvent(rows[..n], v, i);
    } else {
      k := n;
    }
  }

  /** A closed invoice's closing row is in the log once the outbox is drained. */
  lemma ClosingIsInLog(cfg: Config, events: seq<Event>, v: nat) returns (j: nat, k: nat)
    requires Interleaving.IsClosed(Run(cfg, events).db, v) && Drained(Run(cfg, events))
    ensures
      var c := Run(cfg, events);
      && j < |c.pub.log| && k < |c.db.outbox| && k < |c.ledgerIds| && c.pub.log[j] == c.ledgerIds[k]
      && c.db.outbox[k].invoice == v && c.db.outbox[k].value.ClosedWith?
  {
    var c := Run(cfg, events);
    RunCausal(cfg, events);
    RunLawful(cfg, events);
    var a := AccountOf(c.db, v);
    assert AccountOk(cfg, a);
    var i :| 0 <= i < |a.events| && a.events[i].ClosedWith?;
    k := RowOfEvent(c.db.outbox, v, i);
    assert c.ledgerIds[k] in c.ledgerIds;
    j :| 0 <= j < |c.pub.log| && c.pub.log[j] == c.ledgerIds[k];
  }

  /** Transaction `i` is the close of a check-out handler for message `m`. */
  predicate Closes(c: System, i: nat, m: Message) {
    && i < |c.txs| && c.txs[i].CloseTxn? && m.CheckedOut?
    && FindInvoice(c.db, m.reservation) == Found(c.txs[i].invoice)
    && c.txs[i].session == PlainSession(m.confirmedAt, m.checkedInAt, m.checkedOutAt)
  }

  /** Once a check-out is acknowledged, its invoice is closed at every later point of
      every run, whatever else commits. */
  lemma AckedCheckoutStaysClosed(cfg: Config, before: seq<Event>, i: nat, m: Message, now: Instant, fault: Fault, after: seq<Event>)
    requires Closes(Run(cfg, before), i, m)
    requires Handle(cfg, Run(cfg, before).db, m, now, fault).reply == Ack
    ensures Interleaving.IsClosed(Run(cfg, before + [CommitTx(i, now, fault)] + after).db, Run(cfg, before).txs[i].invoice)
  {
    var c, v := Run(cfg, before), Run(cfg, before).txs[i].invoice;
    var mid := before + [CommitTx(i, now, fault)];
    RunSnoc(cfg, before, CommitTx(i, now, fault));
    RunLawful(cfg, before);
    Delivery.CheckoutCloses(cfg, c.db, v, m, now, fault);
    assert Run(cfg, mid).db == Handle(cfg, c.db, m, now, fault).db;
    RunGrows(cfg, mid, after);
    assert Interleaving.Continues(AccountOf(Run(cfg, mid).db, v), AccountOf(Run(cfg, mid + after).db, v));
  }

  /** From the acknowledgement to the broker: once a check-out is acknowledged, then in any
      continuation that has drained the outbox its invoice's closed event is in the log,
      and its opened event before it. */
  lemma AckedCheckoutReachesBroker(cfg: Config, before: seq<Event>, i: nat, m: Message, now: Instant, fault: Fault, after: seq<Event>)
    returns (start: nat, k0: nat, end: nat, k: nat)
    requires Closes(Run(cfg, before), i, m)
    requires Handle(cfg, Run(cfg, before).db, m, now, fault).reply == Ack
    requires Drained(Run(cfg, before + [CommitTx(i, now, fault)] + after))
    ensures
      var v, c := Run(cfg, before).txs[i].invoice, Run(cfg, before + [CommitTx(i, now, fault)] + after);
      && start < end < |c.pub.log| && |c.db.outbox| == |c.ledgerIds| && k < |c.ledgerIds| && k0 < |c.ledgerIds|
      && c.pub.log[end] == c.ledgerIds[k] && c.db.outbox[k].invoice == v && c.db.outbox[k].value.ClosedWith?
      && c.pub.log[start] == c.ledgerIds[k0] && Announces(c.db, k0, v)
  {
    var all := before + [CommitTx(i, now, fault)] + after;
    AckedCheckoutStaysClosed(cfg, before, i, m, now, fault, after);
    end, k := ClosingIsInLog(cfg, all, Run(cfg, before).txs[i].invoice);
    start, k0 := OpenedReachesBrokerFirst(cfg, all, end, k);
    RunCausal(cfg, all);
  }

  /** `n` ticks of the worker in which nothing fails. */
  function HealthyTicks(limit: nat, n: nat): seq<Event> {
    if n == 0 then [] else [Fetch(limit), Send(limit, true)] + HealthyTicks(limit, n - 1)
  }

  lemma TickIsTwoEvents(cfg: Config, c: System, limit: nat)
    ensures Chain.Next(cfg, Chain.Next(cfg, c, Fetch(limit)), Send(limit, true)) == c.(pub := Publisher.Tick(c.pub, limit))
  {
  }

  lemma OneTick(cfg: Config, c: System, limit: nat)
    ensures From(cfg, c, [Fetch(limit), Send(limit, true)]) == c.(pub := Publisher.Tick(c.pub, limit))
  {
    var one, two := [Fetch(limit)], [Fetch(limit), Send(limit, true)];
    assert one[..0] == [] && two[..1] == one;
    assert From(cfg, c, one) == Chain.Next(cfg, From(cfg, c, one[..0]), Fetch(limit));
    assert From(cfg, c, two) == Chain.Next(cfg, From(cfg, c, two[..1]), Send(limit, true));
    TickIsTwoEvents(cfg, c, limit);
  }

  lemma {:induction false} TicksFrom(cfg: Config, c: System, limit: nat, n: nat)
    ensures From(cfg, c, HealthyTicks(limit, n)) == c.(pub := Publisher.Ticks(c.pub, limit, n))
    decreases n
  {
    if n != 0 {
      OneTick(cfg, c, limit);
      FromConcat(cfg, c, [Fetch(limit), Send(limit, true)], HealthyTicks(limit, n - 1));
      TicksFrom(cfg, c.(pub := Publisher.Tick(c.pub, limit)), limit, n - 1);
    }
  }

  /** At any point of any run, enough healthy ticks for the backlog drain the outbox. */
  lemma HealthyTicksReachBroker(cfg: Config, events: seq<Event>, limit: nat, n: nat)
    requires |Publisher.Backlog(Run(cfg, events).pub)| <= n * limit
    ensures Drained(Run(cfg, events + HealthyTicks(limit, n)))
  {
    RunCausal(cfg, events);
    RunFrom(cfg, events, HealthyTicks(limit, n));
    TicksFrom(cfg, Run(cfg, events), limit, n);
    Publisher.HealthyTicksDrain(Run(cfg, events).pub, limit, n);
  }
}
