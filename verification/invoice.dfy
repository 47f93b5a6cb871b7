/** Deposit invoices paid by several transfers (invoice_repo.go). */
module Invoices {

  datatype InvoiceStatus = InvoicePending | InvoicePaid | InvoiceExpired | InvoiceCancelled

  datatype Invoice = Invoice(amount: int, receivedNano: int, status: InvoiceStatus, expiresAt: int)

  datatype Op =
    | AddReceipt(amountNano: int)
    | ExpireOld(now: int)
    | Confirm

  /** Enough has come in (or any amount was asked for). */
  predicate Reached(inv: Invoice, received: int) {
    inv.amount == 0 || received >= inv.amount
  }

  /** The row after the operation and whether this very call paid the invoice. */
  function Step(inv: Invoice, op: Op): (Invoice, bool) {
    match op
    case AddReceipt(n) =>
      var paid := inv.status == InvoicePending && Reached(inv, inv.receivedNano + n);
      (inv.(receivedNano := inv.receivedNano + n, status := if paid then InvoicePaid else inv.status), paid)
    case ExpireOld(now) =>
      (if inv.status == InvoicePending && inv.expiresAt < now then inv.(status := InvoiceExpired) else inv, false)
    case Confirm => (inv.(status := InvoicePaid), false)
  }

  function Run(inv: Invoice, ops: seq<Op>): Invoice {
    if ops == [] then inv else Step(Run(inv, ops[..|ops| - 1]), ops[|ops| - 1]).0
  }

  class InvoiceRow {
    var row: Invoice

    method AddInvoiceReceipt(amountNano: int) returns (paid: bool)
      modifies this
      ensures (row, paid) == Step(old(row), AddReceipt(amountNano))
    {
      paid := false;
      var newReceived := row.receivedNano + amountNano;
      if row.status == InvoicePending && (row.amount == 0 || newReceived >= row.amount) {
        row := row.(status := InvoicePaid);
        paid := true;
      }
      row := row.(receivedNano := newReceived);
    }

    method ExpireOldInvoice(now: int)
      modifies this
      ensures row == Step(old(row), ExpireOld(now)).0
    {
      if row.status == InvoicePending && row.expiresAt < now {
        row := row.(status := InvoiceExpired);
      }
    }
  }

  // -------------------------------------------------------------------- proofs

  /** What had come in after the first n operations. */
  function RunningSum(ops: seq<Op>, n: nat): int
    requires n <= |ops|
  {
    if n == 0 then 0
    else RunningSum(ops, n - 1) + if ops[n - 1].AddReceipt? then ops[n - 1].amountNano else 0
  }

  /** Operation j takes a pending invoice out of pending. */
  predicate Closes(inv: Invoice, ops: seq<Op>, j: nat)
    requires j < |ops|
  {
    match ops[j]
    case AddReceipt(_) => Reached(inv, RunningSum(ops, j + 1))
    case ExpireOld(now) => inv.expiresAt < now
    case Confirm => true
  }

  /** Does call i return paid? */
  function Paid(inv: Invoice, ops: seq<Op>, i: nat): bool
    requires i < |ops|
  {
    Step(Run(inv, ops[..i]), ops[i]).1
  }

  lemma {:induction false} StateAfter(inv: Invoice, ops: seq<Op>, n: nat)
    requires inv.status == InvoicePending && inv.receivedNano == 0 && n <= |ops|
    ensures var now := Run(inv, ops[..n]);
      && now.receivedNano == RunningSum(ops, n)
      && now.amount == inv.amount && now.expiresAt == inv.expiresAt
      && (now.status == InvoicePending <==> forall j: nat | j < n :: !Closes(inv, ops, j))
    decreases n
  {
    if n > 0 {
      assert ops[..n][..n - 1] == ops[..n - 1];
      StateAfter(inv, ops, n - 1);
      assert Run(inv, ops[..n]).status == InvoicePending <==>
        Run(inv, ops[..n - 1]).status == InvoicePending && !Closes(inv, ops, n - 1);
    }
  }

  /** Over any operations on a fresh invoice: received is the running sum, and a
      call returns paid exactly when it is the receipt whose running sum first
      reaches the amount while nothing closed the invoice before. */
  lemma {:induction false} PaidExactlyByFirstReaching(inv: Invoice, ops: seq<Op>, i: nat)
    requires inv.status == InvoicePending && inv.receivedNano == 0 && i < |ops|
    ensures Run(inv, ops[..i]).receivedNano == RunningSum(ops, i)
    ensures Paid(inv, ops, i) <==>
      ops[i].AddReceipt? && Closes(inv, ops, i) && forall j: nat | j < i :: !Closes(inv, ops, j)
  {
    StateAfter(inv, ops, i);
  }

  /** So at most one call ever returns paid. */
  lemma PaidAtMostOnce(inv: Invoice, ops: seq<Op>, i: nat, j: nat)
    requires inv.status == InvoicePending && inv.receivedNano == 0 && i < |ops| && j < |ops|
    requires Paid(inv, ops, i) && Paid(inv, ops, j)
    ensures i == j
  {
    PaidExactlyByFirstReaching(inv, ops, i);
    PaidExactlyByFirstReaching(inv, ops, j);
  }
}
