/** The invoice repository, updating its tables in place. */
module Repository {
  import opened Pricing
  import opened Accounts
  import opened Ledger
  import opened Billing

  class InvoiceRepository {
    var invoices: seq<Invoice>
    var lines: seq<Row<Line>>
    var outbox: seq<Row<Announcement>>

    ghost function Contents(): Tables
      reads this
    {
      Tables(invoices, lines, outbox)
    }

    constructor ()
      ensures Contents() == EMPTY
    {
      invoices, lines, outbox := [], [], [];
    }

    method Open(reservation: string, driver: string, key: string, fee: int, evt: Announcement, fault: Fault)
      returns (outcome: Outcome)
      modifies this
      ensures Result(Contents(), outcome) == OpenTx(old(Contents()), reservation, driver, key, fee, evt, fault)
      ensures outcome.Ok? ==> outcome.invoice < |invoices| && invoices[outcome.invoice].key == key
      ensures Integrity(old(Contents())) ==>
                Integrity(Contents()) && OnlyTouches(old(Contents()), Contents(), |old(invoices)|)
    {
      ghost var before := Contents();
      if Integrity(before) {
        OpenActsOnFreshAccount(before, reservation, driver, key, fee, evt, fault);
      }
      if fault.BeforeCommit? || !ValidUuid(reservation) {
        return Fail(Infrastructure);
      }
      if ByReservation(invoices, reservation).Some? || ByKey(invoices, key).Some? {
        var existing := ByKey(invoices, key);
        if existing.None? {
          return Fail(NotFound);
        }
        return if fault.AfterCommit? then Fail(Infrastructure) else Ok(existing.value);
      }
      var id := |invoices|;
      invoices := invoices + [Invoice(reservation, driver, Status.Open, fee, key, None)];
      lines := lines + [Row(id, Line(Booking, fee))];
      outbox := outbox + [Row(id, evt)];
      return if fault.AfterCommit? then Fail(Infrastructure) else Ok(id);
    }

    method GetByReservation(reservation: string) returns (found: Lookup)
      ensures found == FindInvoice(Contents(), reservation)
      ensures found.Found? ==> found.invoice < |invoices| && invoices[found.invoice].reservation == reservation
    {
      if !ValidUuid(reservation) {
        return Rejected;
      }
      var id := ByReservation(invoices, reservation);
      return if id.None? then Missing else Found(id.value);
    }

    method Close(id: nat, batch: seq<Line>, evt: Announcement, now: Instant, fault: Fault) returns (outcome: Outcome)
      modifies this
      ensures Result(Contents(), outcome) == CloseTx(old(Contents()), id, batch, evt, now, fault)
      ensures outcome.Ok? ==> outcome.invoice == id < |invoices| && invoices[id].status != Status.Open
      ensures Integrity(old(Contents())) ==> Integrity(Contents()) && OnlyTouches(old(Contents()), Contents(), id)
    {
      ghost var before := Contents();
      if Integrity(before) {
        CloseActsOnOneAccount(before, id, batch, evt, now, fault);
      }
      if fault.BeforeCommit? {
        return Fail(Infrastructure);
      }
      if id >= |invoices| {
        return Fail(NotFound);
      }
      if invoices[id].status != Status.Open {
        return if fault.AfterCommit? then Fail(Infrastructure) else Ok(id);
      }
      var existingTotal := invoices[id].total;
      var committedLines := lines;
      var newLineTotal := 0;
      for i := 0 to |batch|
        invariant invoices == old(invoices) && outbox == old(outbox)
        invariant InsertRows(lines, id, batch[i..]) == InsertRows(old(lines), id, batch)
        invariant newLineTotal == ChargeSum(batch[..i])
      {
        var l := batch[i];
        assert batch[i..][0] == l && batch[i..][1..] == batch[i + 1..];
        assert batch[..i + 1] == batch[..i] + [l];
        SumSnoc(batch[..i], l);
        if l.kind != Booking {
          if Violates(Of(lines, id), l) {
            lines := committedLines;
            return Fail(Conflict);
          }
          lines := lines + [Row(id, l)];
          newLineTotal := newLineTotal + l.amount;
        }
      }
      assert batch[..|batch|] == batch;
      invoices := invoices[id := invoices[id].(status := Closed, total := existingTotal + newLineTotal, closedAt := Some(now))];
      outbox := outbox + [Row(id, evt)];
      return if fault.AfterCommit? then Fail(Infrastructure) else Ok(id);
    }

    method AppendLine(id: nat, l: Line, evt: Announcement, fault: Fault) returns (outcome: Outcome)
      modifies this
      ensures Result(Contents(), outcome) == AppendTx(old(Contents()), id, l, evt, fault)
      ensures Integrity(old(Contents())) ==> Integrity(Contents()) && OnlyTouches(old(Contents()), Contents(), id)
      ensures Integrity(old(Contents())) && outcome.Ok? ==>
                && outcome.invoice == id < |invoices|
                && AppendAccount(AccountOf(old(Contents()), id), l, evt) == Some(AccountOf(Contents(), id))
    {
      ghost var before := Contents();
      if Integrity(before) {
        AppendActsOnOneAccount(before, id, l, evt, fault);
      }
      if fault.BeforeCommit? || id >= |invoices| {
        return Fail(Infrastructure);
      }
      if Violates(Of(lines, id), l) {
        return Fail(Conflict);
      }
      lines := lines + [Row(id, l)];
      invoices := invoices[id := invoices[id].(total := invoices[id].total + l.amount)];
      outbox := outbox + [Row(id, evt)];
      return if fault.AfterCommit? then Fail(Infrastructure) else Ok(id);
    }
  }
}
