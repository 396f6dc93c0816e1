/** The three billing tables and the transactions on them. Each transaction is one
    atomic step; a unique violation or a failed call rolls it back. */
module Ledger {
  import opened Pricing
  import opened Accounts

  /** A row of invoice_line or outbox_event, with the invoice it belongs to. */
  datatype Row<+V> = Row(invoice: nat, value: V)

  /** An invoice's id is its position, standing for the fresh uuid the database draws. */
  datatype Tables = Tables(invoices: seq<Invoice>, lines: seq<Row<Line>>, outbox: seq<Row<Announcement>>)

  const EMPTY := Tables([], [], [])

  /** Where the infrastructure fails during an operation: nowhere, before anything is
      committed, or in the read that follows the commit. */
  datatype Fault = Healthy | BeforeCommit | AfterCommit

  datatype Error = Validation | NotFound | Conflict | Infrastructure

  datatype Outcome = Ok(invoice: nat) | Fail(error: Error)

  datatype Result = Result(db: Tables, outcome: Outcome)

  /** Canonical text form of a uuid; the reservation_id column rejects other text. */
  predicate ValidUuid(s: string) {
    |s| == 36 && UuidFrom(s, 0)
  }

  predicate UuidFrom(s: string, i: nat)
    requires |s| == 36 && i <= 36
    decreases 36 - i
  {
    i == 36
    || ((if i == 8 || i == 13 || i == 18 || i == 23 then s[i] == '-'
         else '0' <= s[i] <= '9' || 'a' <= s[i] <= 'f')
        && UuidFrom(s, i + 1))
  }

  /* ---------- rows of one invoice ---------- */

  function Of<V>(rows: seq<Row<V>>, id: nat): seq<V> {
    if rows == [] then []
    else
      var init, last := Of(rows[..|rows| - 1], id), rows[|rows| - 1];
      if last.invoice == id then init + [last.value] else init
  }

  lemma OfSnoc<V>(rows: seq<Row<V>>, r: Row<V>, id: nat)
    ensures Of(rows + [r], id) == if r.invoice == id then Of(rows, id) + [r.value] else Of(rows, id)
  {
    assert (rows + [r])[..|rows|] == rows;
  }

  lemma {:induction false} OfAbsent<V>(rows: seq<Row<V>>, id: nat)
    requires forall i :: 0 <= i < |rows| ==> rows[i].invoice != id
    ensures Of(rows, id) == []
  {
    if rows != [] {
      OfAbsent(rows[..|rows| - 1], id);
    }
  }

  /** The invoice `id` on its own. */
  function AccountOf(db: Tables, id: nat): Account
    requires id < |db.invoices|
  {
    Account(db.invoices[id], Of(db.lines, id), Of(db.outbox, id))
  }

  /* ---------- lookups ---------- */

  /** The two unique text columns of the invoice table. */
  datatype Column = ReservationId | IdempotencyKey

  function Field(row: Invoice, c: Column): string {
    if c.ReservationId? then row.reservation else row.key
  }

  function Find(invoices: seq<Invoice>, c: Column, text: string): (r: Option<nat>)
    ensures r.Some? ==> r.value < |invoices| && Field(invoices[r.value], c) == text
    ensures r.None? ==> forall i :: 0 <= i < |invoices| ==> Field(invoices[i], c) != text
  {
    if invoices == [] then None
    else if Field(invoices[|invoices| - 1], c) == text then Some(|invoices| - 1)
    else Find(invoices[..|invoices| - 1], c, text)
  }

  function ByReservation(invoices: seq<Invoice>, reservation: string): (r: Option<nat>)
    ensures r.Some? ==> r.value < |invoices| && invoices[r.value].reservation == reservation
    ensures r.None? ==> forall i :: 0 <= i < |invoices| ==> invoices[i].reservation != reservation
  {
    var r := Find(invoices, ReservationId, reservation);
    assert r.None? ==> forall i :: 0 <= i < |invoices| ==> Field(invoices[i], ReservationId) != reservation;
    r
  }

  function ByKey(invoices: seq<Invoice>, key: string): (r: Option<nat>)
    ensures r.Some? ==> r.value < |invoices| && invoices[r.value].key == key
    ensures r.None? ==> forall i :: 0 <= i < |invoices| ==> invoices[i].key != key
  {
    var r := Find(invoices, IdempotencyKey, key);
    assert r.None? ==> forall i :: 0 <= i < |invoices| ==> Field(invoices[i], IdempotencyKey) != key;
    r
  }

  /* ---------- transactions ---------- */

  function Settle(db: Tables, id: nat, fault: Fault): Result {
    Result(db, if fault.AfterCommit? then Fail(Infrastructure) else Ok(id))
  }

  function OpenTx(db: Tables, reservation: string, driver: string, key: string, fee: int,
                  evt: Announcement, fault: Fault): Result
  {
    if fault.BeforeCommit? || !ValidUuid(reservation) then Result(db, Fail(Infrastructure))
    else if ByReservation(db.invoices, reservation).Some? || ByKey(db.invoices, key).Some? then
      match ByKey(db.invoices, key)
      case Some(id) => Settle(db, id, fault)
      case None => Result(db, Fail(NotFound))
    else
      var id := |db.invoices|;
      Settle(Tables(db.invoices + [Invoice(reservation, driver, Open, fee, key, None)],
                    db.lines + [Row(id, Line(Booking, fee))],
                    db.outbox + [Row(id, evt)]), id, fault)
  }

  /** Line table after a batch insert for one invoice; None when the unique index
      refuses a row. */
  function InsertRows(rows: seq<Row<Line>>, id: nat, batch: seq<Line>): Option<seq<Row<Line>>>
    decreases |batch|
  {
    if batch == [] then Some(rows)
    else if batch[0].kind == Booking then InsertRows(rows, id, batch[1..])
    else if Violates(Of(rows, id), batch[0]) then None
    else InsertRows(rows + [Row(id, batch[0])], id, batch[1..])
  }

  function CloseTx(db: Tables, id: nat, batch: seq<Line>, evt: Announcement, now: Instant, fault: Fault): Result {
    if fault.BeforeCommit? then Result(db, Fail(Infrastructure))
    else if id >= |db.invoices| then Result(db, Fail(NotFound))
    else if db.invoices[id].status != Open then Settle(db, id, fault)
    else
      match InsertRows(db.lines, id, batch)
      case None => Result(db, Fail(Conflict))
      case Some(rows) =>
        var row := db.invoices[id];
        var closed := row.(status := Closed, total := row.total + ChargeSum(batch), closedAt := Some(now));
        Settle(Tables(db.invoices[id := closed], rows, db.outbox + [Row(id, evt)]), id, fault)
  }

  function AppendTx(db: Tables, id: nat, l: Line, evt: Announcement, fault: Fault): Result {
    if fault.BeforeCommit? then Result(db, Fail(Infrastructure))
    else if id >= |db.invoices| then Result(db, Fail(Infrastructure))
    else if Violates(Of(db.lines, id), l) then Result(db, Fail(Conflict))
    else
      var row := db.invoices[id];
      Settle(Tables(db.invoices[id := row.(total := row.total + l.amount)],
                    db.lines + [Row(id, l)],
                    db.outbox + [Row(id, evt)]), id, fault)
  }

  /* ---------- integrity of the tables ---------- */

  /** Foreign keys and the two unique columns. */
  ghost predicate Integrity(db: Tables) {
    && (forall i :: 0 <= i < |db.lines| ==> db.lines[i].invoice < |db.invoices|)
    && (forall i :: 0 <= i < |db.outbox| ==> db.outbox[i].invoice < |db.invoices|)
    && (forall i, j :: 0 <= i < j < |db.invoices| ==> db.invoices[i].reservation != db.invoices[j].reservation)
    && (forall i, j :: 0 <= i < j < |db.invoices| ==> db.invoices[i].key != db.invoices[j].key)
  }

  lemma ReservationFindsInvoice(db: Tables, id: nat)
    requires Integrity(db) && id < |db.invoices|
    ensures ByReservation(db.invoices, db.invoices[id].reservation) == Some(id)
    ensures ByKey(db.invoices, db.invoices[id].key) == Some(id)
  {
    var i := ByReservation(db.invoices, db.invoices[id].reservation);
    var j := ByKey(db.invoices, db.invoices[id].key);
    assert i.Some? && j.Some?;
    assert !(i.value < id) && !(id < i.value);
    assert !(j.value < id) && !(id < j.value);
  }

  /** All of `db` but invoice `id` is as it was. */
  ghost predicate OnlyTouches(db: Tables, db': Tables, id: nat) {
    && |db'.invoices| >= |db.invoices|
    && (forall j :: 0 <= j < |db.invoices| && j != id ==> AccountOf(db', j) == AccountOf(db, j))
  }

  /* ---------- each transaction acts on one account ---------- */

  /** The first row of a new invoice is its only row and leaves other invoices alone. */
  lemma FirstRow<V>(rows: seq<Row<V>>, n: nat, value: V)
    requires forall i :: 0 <= i < |rows| ==> rows[i].invoice < n
    ensures Of(rows + [Row(n, value)], n) == [value]
    ensures forall j: nat :: j != n ==> Of(rows + [Row(n, value)], j) == Of(rows, j)
  {
    OfAbsent(rows, n);
    OfSnoc(rows, Row(n, value), n);
    forall j: nat | j != n
      ensures Of(rows + [Row(n, value)], j) == Of(rows, j)
    {
      OfSnoc(rows, Row(n, value), j);
    }
  }

  predicate Opens(db: Tables, reservation: string, key: string, fault: Fault) {
    && !fault.BeforeCommit? && ValidUuid(reservation)
    && ByReservation(db.invoices, reservation).None? && ByKey(db.invoices, key).None?
  }

  lemma OpenKeepsIntegrity(db: Tables, reservation: string, driver: string, key: string, fee: int,
                           evt: Announcement, fault: Fault)
    requires Integrity(db)
    ensures Integrity(OpenTx(db, reservation, driver, key, fee, evt, fault).db)
  {
  }

  lemma OpenActsOnFreshAccount(db: Tables, reservation: string, driver: string, key: string, fee: int,
                               evt: Announcement, fault: Fault)
    requires Integrity(db)
    ensures
      var r := OpenTx(db, reservation, driver, key, fee, evt, fault);
      var n := |db.invoices|;
      && Integrity(r.db)
      && (r.db != db <==> Opens(db, reservation, key, fault))
      && (r.db != db ==>
            && |r.db.invoices| == n + 1
            && AccountOf(r.db, n) == OpenAccount(reservation, driver, key, fee, evt)
            && OnlyTouches(db, r.db, n)
            && r.db.outbox == db.outbox + [Row(n, evt)])
  {
    OpenKeepsIntegrity(db, reservation, driver, key, fee, evt, fault);
    if Opens(db, reservation, key, fault) {
      var r := OpenTx(db, reservation, driver, key, fee, evt, fault);
      assert |r.db.invoices| == |db.invoices| + 1;
      FirstRow(db.lines, |db.invoices|, Line(Booking, fee));
      FirstRow(db.outbox, |db.invoices|, evt);
    }
  }

  lemma {:induction false} InsertRowsIsInsert(rows: seq<Row<Line>>, id: nat, batch: seq<Line>, j: nat)
    ensures InsertRows(rows, id, batch).None? <==> Insert(Of(rows, id), batch).None?
    ensures InsertRows(rows, id, batch).Some? ==>
              && Of(InsertRows(rows, id, batch).value, id) == Insert(Of(rows, id), batch).value
              && (j != id ==> Of(InsertRows(rows, id, batch).value, j) == Of(rows, j))
    decreases |batch|
  {
    if batch != [] {
      if batch[0].kind == Booking {
        InsertRowsIsInsert(rows, id, batch[1..], j);
      } else if !Violates(Of(rows, id), batch[0]) {
        OfSnoc(rows, Row(id, batch[0]), id);
        OfSnoc(rows, Row(id, batch[0]), j);
        InsertRowsIsInsert(rows + [Row(id, batch[0])], id, batch[1..], j);
      }
    }
  }

  lemma {:induction false} InsertRowsKeepsForeignKeys(rows: seq<Row<Line>>, id: nat, batch: seq<Line>, n: nat)
    requires id < n && forall i :: 0 <= i < |rows| ==> rows[i].invoice < n
    requires InsertRows(rows, id, batch).Some?
    ensures forall i :: 0 <= i < |InsertRows(rows, id, batch).value| ==> InsertRows(rows, id, batch).value[i].invoice < n
    decreases |batch|
  {
    if batch != [] {
      if batch[0].kind == Booking {
        InsertRowsKeepsForeignKeys(rows, id, batch[1..], n);
      } else {
        InsertRowsKeepsForeignKeys(rows + [Row(id, batch[0])], id, batch[1..], n);
      }
    }
  }

  lemma CloseActsOnOneAccount(db: Tables, id: nat, batch: seq<Line>, evt: Announcement, now: Instant, fault: Fault)
    requires Integrity(db)
    ensures
      var r := CloseTx(db, id, batch, evt, now, fault);
      && Integrity(r.db)
      && |r.db.invoices| == |db.invoices|
      && OnlyTouches(db, r.db, id)
      && (id >= |db.invoices| || fault.BeforeCommit? ==> r.db == db && r.outcome.Fail?)
      && (id < |db.invoices| && !fault.BeforeCommit? ==>
            var c := CloseAccount(AccountOf(db, id), batch, evt, now);
            if c.None? then r == Result(db, Fail(Conflict))
            else AccountOf(r.db, id) == c.value && (r.outcome.Ok? <==> fault.Healthy?))
      && (r.db == db || (id < |db.invoices| && r.db.outbox == db.outbox + [Row(id, evt)]))
  {
    var r := CloseTx(db, id, batch, evt, now, fault);
    if !fault.BeforeCommit? && id < |db.invoices| && db.invoices[id].status == Open {
      InsertRowsIsInsert(db.lines, id, batch, id);
      if InsertRows(db.lines, id, batch).Some? {
        InsertRowsKeepsForeignKeys(db.lines, id, batch, |db.invoices|);
        forall j | 0 <= j < |db.invoices|
          ensures j != id ==> AccountOf(r.db, j) == AccountOf(db, j)
          ensures Of(r.db.outbox, j) == if j == id then Of(db.outbox, j) + [evt] else Of(db.outbox, j)
        {
          InsertRowsIsInsert(db.lines, id, batch, j);
          OfSnoc(db.outbox, Row(id, evt), j);
        }
      }
    }
  }

  lemma AppendActsOnOneAccount(db: Tables, id: nat, l: Line, evt: Announcement, fault: Fault)
    requires Integrity(db)
    ensures
      var r := AppendTx(db, id, l, evt, fault);
      && Integrity(r.db)
      && |r.db.invoices| == |db.invoices|
      && OnlyTouches(db, r.db, id)
      && (id >= |db.invoices| || fault.BeforeCommit? ==> r.db == db && r.outcome.Fail?)
      && (id < |db.invoices| && !fault.BeforeCommit? ==>
            var c := AppendAccount(AccountOf(db, id), l, evt);
            if c.None? then r == Result(db, Fail(Conflict))
            else AccountOf(r.db, id) == c.value && (r.outcome.Ok? <==> fault.Healthy?))
      && (r.db == db || (id < |db.invoices| && r.db.outbox == db.outbox + [Row(id, evt)]))
  {
    var r := AppendTx(db, id, l, evt, fault);
    if !fault.BeforeCommit? && id < |db.invoices| && !Violates(Of(db.lines, id), l) {
      forall j | 0 <= j < |db.invoices|
        ensures Of(r.db.lines, j) == if j == id then Of(db.lines, j) + [l] else Of(db.lines, j)
        ensures Of(r.db.outbox, j) == if j == id then Of(db.outbox, j) + [evt] else Of(db.outbox, j)
      {
        OfSnoc(db.lines, Row(id, l), j);
        OfSnoc(db.outbox, Row(id, evt), j);
      }
    }
  }
}
