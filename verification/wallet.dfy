/** Wallet balances, the transaction table and withdrawal requests (wallet_repo.go,
    transfer.go, withdraw_repo.go). One database transaction is one atomic step; a
    rolled-back transaction leaves the state as it was. */
module Wallets {
  import opened Text
  import opened Totals

  datatype Wallet = Wallet(ton: int, credit: int, frozen: int) {
    /** What is not frozen, TON and credit together, covers the amount. */
    predicate HasEnough(amount: int) {
      ton + credit - frozen >= amount
    }
  }

  datatype TxType = TxDeposit | TxWithdraw | TxCreditAdd | TxPayment | TxRefund

  datatype Transaction = Transaction(
    walletId: Uuid, kind: TxType, amount: int, txHash: string, serviceId: string, ref: string)

  datatype WithdrawStatus =
    WithdrawPending | WithdrawApproved | WithdrawProcessing | WithdrawDone | WithdrawRejected

  datatype WithdrawRequest =
    WithdrawRequest(walletId: Uuid, amount: int, fee: int, status: WithdrawStatus)
  {
    function Total(): int {
      amount + fee
    }
  }

  /** Requests are known by their row number. */
  datatype State = State(
    wallets: map<Uuid, Wallet>, rows: seq<Transaction>, requests: seq<WithdrawRequest>)

  datatype Error = InvalidAmount | NotFound | InsufficientBalance | DuplicateHash

  datatype Outcome =
    | Recorded(row: nat)
    | Moved(fromRow: nat, toRow: nat)
    | Created(request: nat)
    | Updated
    | Rejected(error: Error)

  /** `internalId` is the UUID the program draws for a row with no chain hash. */
  datatype Op =
    | Deposit(wallet: Uuid, amount: int, txHash: string)
    | Deduct(wallet: Uuid, amount: int, serviceId: string, ref: string, internalId: string)
    | AddCredit(wallet: Uuid, amount: int, internalId: string)
    | Transfer(source: Uuid, target: Uuid, amount: int, internalId: string)
    | CreateWithdraw(wallet: Uuid, amount: int, fee: int)
    | CompleteWithdraw(request: nat)
    | RejectWithdraw(request: nat)

  // ------------------------------------------------------------------- queries

  /** First row with this hash, or the table's length. */
  function FindHash(rows: seq<Transaction>, txHash: string): (i: nat)
    ensures i <= |rows|
    ensures i < |rows| ==> rows[i].txHash == txHash
    ensures forall j | 0 <= j < i :: rows[j].txHash != txHash
  {
    if rows == [] then 0
    else
      var i := FindHash(rows[..|rows| - 1], txHash);
      if i < |rows| - 1 || rows[|rows| - 1].txHash == txHash then i else |rows|
  }

  predicate IsPayment(t: Transaction, w: Uuid, serviceId: string, ref: string) {
    t.walletId == w && t.serviceId == serviceId && t.ref == ref && t.kind == TxPayment
  }

  function FindPayment(rows: seq<Transaction>, w: Uuid, serviceId: string, ref: string): (i: nat)
    ensures i <= |rows|
    ensures i < |rows| ==> IsPayment(rows[i], w, serviceId, ref)
    ensures forall j | 0 <= j < i :: !IsPayment(rows[j], w, serviceId, ref)
  {
    if rows == [] then 0
    else
      var i := FindPayment(rows[..|rows| - 1], w, serviceId, ref);
      if i < |rows| - 1 || IsPayment(rows[|rows| - 1], w, serviceId, ref) then i else |rows|
  }

  /** The partial unique index on non-empty hashes refuses the insert. */
  predicate HashTaken(rows: seq<Transaction>, txHash: string) {
    txHash != "" && FindHash(rows, txHash) < |rows|
  }

  // --------------------------------------------------------------------- steps

  /** Credit first, then TON: (creditUsed, tonUsed). */
  function Split(w: Wallet, amount: int): (int, int) {
    if w.credit >= amount then (amount, 0) else (w.credit, amount - w.credit)
  }

  function Take(w: Wallet, creditUsed: int, tonUsed: int): Wallet {
    w.(credit := if creditUsed > 0 then w.credit - creditUsed else w.credit,
       ton := if tonUsed > 0 then w.ton - tonUsed else w.ton)
  }

  function Give(w: Wallet, creditUsed: int, tonUsed: int): Wallet {
    w.(credit := if creditUsed > 0 then w.credit + creditUsed else w.credit,
       ton := if tonUsed > 0 then w.ton + tonUsed else w.ton)
  }

  function DepositStep(s: State, op: Op): (State, Outcome)
    requires op.Deposit?
  {
    var i := FindHash(s.rows, op.txHash);
    if i < |s.rows| then (s, Recorded(i))
    else
      var row := Transaction(op.wallet, TxDeposit, op.amount, op.txHash, "", "");
      var ws := if op.wallet !in s.wallets then s.wallets
                else s.wallets[op.wallet := s.wallets[op.wallet].(ton := s.wallets[op.wallet].ton + op.amount)];
      (s.(wallets := ws, rows := s.rows + [row]), Recorded(|s.rows|))
  }

  function DeductStep(s: State, op: Op): (State, Outcome)
    requires op.Deduct?
  {
    var i := FindPayment(s.rows, op.wallet, op.serviceId, op.ref);
    var row := Transaction(op.wallet, TxPayment, -op.amount, "int-" + op.internalId, op.serviceId, op.ref);
    if op.amount <= 0 then (s, Rejected(InvalidAmount))
    else if op.ref != "" && i < |s.rows| then (s, Recorded(i))
    else if op.wallet !in s.wallets then (s, Rejected(NotFound))
    else if !s.wallets[op.wallet].HasEnough(op.amount) then (s, Rejected(InsufficientBalance))
    else if HashTaken(s.rows, row.txHash) then (s, Rejected(DuplicateHash))
    else
      var (creditUsed, tonUsed) := Split(s.wallets[op.wallet], op.amount);
      (s.(wallets := s.wallets[op.wallet := Take(s.wallets[op.wallet], creditUsed, tonUsed)],
          rows := s.rows + [row]), Recorded(|s.rows|))
  }

  function AddCreditStep(s: State, op: Op): (State, Outcome)
    requires op.AddCredit?
  {
    var row := Transaction(op.wallet, TxCreditAdd, op.amount, "int-" + op.internalId, "", "");
    if op.amount <= 0 then (s, Rejected(InvalidAmount))
    else if HashTaken(s.rows, row.txHash) then (s, Rejected(DuplicateHash))
    else
      var ws := if op.wallet !in s.wallets then s.wallets
                else s.wallets[op.wallet := s.wallets[op.wallet].(credit := s.wallets[op.wallet].credit + op.amount)];
      (s.(wallets := ws, rows := s.rows + [row]), Updated)
  }

  /** Both updates are increments on the stored rows, so sender may be receiver. */
  function Move(ws: map<Uuid, Wallet>, source: Uuid, target: Uuid, amount: int): map<Uuid, Wallet>
    requires source in ws && target in ws
  {
    var (creditUsed, tonUsed) := Split(ws[source], amount);
    var taken := ws[source := Take(ws[source], creditUsed, tonUsed)];
    taken[target := Give(taken[target], creditUsed, tonUsed)]
  }

  function TransferStep(s: State, op: Op): (State, Outcome)
    requires op.Transfer?
  {
    var hash := "int-" + op.internalId;
    var fromRow := Transaction(op.source, TxPayment, -op.amount, hash + "-from", "", "");
    var toRow := Transaction(op.target, TxDeposit, op.amount, hash + "-to", "", "");
    if op.amount <= 0 then (s, Rejected(InvalidAmount))
    else if op.source !in s.wallets || op.target !in s.wallets then (s, Rejected(NotFound))
    else if !s.wallets[op.source].HasEnough(op.amount) then (s, Rejected(InsufficientBalance))
    else if HashTaken(s.rows, fromRow.txHash) || HashTaken(s.rows, toRow.txHash) then
      (s, Rejected(DuplicateHash))
    else
      (s.(wallets := Move(s.wallets, op.source, op.target, op.amount),
          rows := s.rows + [fromRow] + [toRow]), Moved(|s.rows|, |s.rows| + 1))
  }

  function CreateWithdrawStep(s: State, op: Op): (State, Outcome)
    requires op.CreateWithdraw?
  {
    var total := op.amount + op.fee;
    if op.wallet !in s.wallets then (s, Rejected(NotFound))
    else if !s.wallets[op.wallet].HasEnough(total) then (s, Rejected(InsufficientBalance))
    else
      var w := s.wallets[op.wallet];
      (s.(wallets := s.wallets[op.wallet := w.(frozen := w.frozen + total)],
          requests := s.requests + [WithdrawRequest(op.wallet, op.amount, op.fee, WithdrawPending)]),
       Created(|s.requests|))
  }

  /** Finishing a request looks at its row only: the code checks no status. */
  function FinishStep(s: State, id: nat, done: bool): (State, Outcome) {
    if id >= |s.requests| then (s, Rejected(NotFound))
    else
      var r := s.requests[id];
      var status := if done then WithdrawDone else WithdrawRejected;
      var ws := if r.walletId !in s.wallets then s.wallets
                else
                  var w := s.wallets[r.walletId];
                  s.wallets[r.walletId := Wallet(if done then w.ton - r.Total() else w.ton,
                                                 w.credit, w.frozen - r.Total())];
      (s.(wallets := ws, requests := s.requests[id := r.(status := status)]), Updated)
  }

  function Step(s: State, op: Op): (State, Outcome) {
    match op
    case Deposit(_, _, _) => DepositStep(s, op)
    case Deduct(_, _, _, _, _) => DeductStep(s, op)
    case AddCredit(_, _, _) => AddCreditStep(s, op)
    case Transfer(_, _, _, _) => TransferStep(s, op)
    case CreateWithdraw(_, _, _) => CreateWithdrawStep(s, op)
    case CompleteWithdraw(id) => FinishStep(s, id, true)
    case RejectWithdraw(id) => FinishStep(s, id, false)
  }

  function Run(s: State, ops: seq<Op>): State {
    if ops == [] then s else Step(Run(s, ops[..|ops| - 1]), ops[|ops| - 1]).0
  }

  function Opening(wallets: set<Uuid>): State {
    State(map w | w in wallets :: Wallet(0, 0, 0), [], [])
  }

  // --------------------------------------------------------------------- class

  class WalletStore {
    var wallets: map<Uuid, Wallet>
    var rows: seq<Transaction>
    var requests: seq<WithdrawRequest>

    function View(): State
      reads this
    {
      State(wallets, rows, requests)
    }

    method Deposit(op: Op) returns (out: Outcome)
      requires op.Deposit?
      modifies this
      ensures (View(), out) == DepositStep(old(View()), op)
    {
      var i := FindHash(rows, op.txHash);
      if i < |rows| {
        return Recorded(i);
      }
      if op.wallet in wallets {
        wallets := wallets[op.wallet := wallets[op.wallet].(ton := wallets[op.wallet].ton + op.amount)];
      }
      out := Recorded(|rows|);
      rows := rows + [Transaction(op.wallet, TxDeposit, op.amount, op.txHash, "", "")];
    }

    method Deduct(op: Op) returns (out: Outcome)
      requires op.Deduct?
      modifies this
      ensures (View(), out) == DeductStep(old(View()), op)
    {
      if op.amount <= 0 {
        return Rejected(InvalidAmount);
      }
      if op.ref != "" {
        var i := FindPayment(rows, op.wallet, op.serviceId, op.ref);
        if i < |rows| {
          return Recorded(i);
        }
      }
      if op.wallet !in wallets {
        return Rejected(NotFound);
      }
      var w := wallets[op.wallet];
      if !w.HasEnough(op.amount) {
        return Rejected(InsufficientBalance);
      }
      var creditUsed, tonUsed := 0, 0;
      if w.credit >= op.amount {
        creditUsed := op.amount;
      } else {
        creditUsed := w.credit;
        tonUsed := op.amount - creditUsed;
      }
      var row := Transaction(op.wallet, TxPayment, -op.amount, "int-" + op.internalId, op.serviceId, op.ref);
      if HashTaken(rows, row.txHash) {
        return Rejected(DuplicateHash);
      }
      wallets := wallets[op.wallet := Take(w, creditUsed, tonUsed)];
      out := Recorded(|rows|);
      rows := rows + [row];
    }

    method AddCredit(op: Op) returns (out: Outcome)
      requires op.AddCredit?
      modifies this
      ensures (View(), out) == AddCreditStep(old(View()), op)
    {
      if op.amount <= 0 {
        return Rejected(InvalidAmount);
      }
      var row := Transaction(op.wallet, TxCreditAdd, op.amount, "int-" + op.internalId, "", "");
      if HashTaken(rows, row.txHash) {
        return Rejected(DuplicateHash);
      }
      if op.wallet in wallets {
        wallets := wallets[op.wallet := wallets[op.wallet].(credit := wallets[op.wallet].credit + op.amount)];
      }
      rows := rows + [row];
      out := Updated;
    }

    method Transfer(op: Op) returns (out: Outcome)
      requires op.Transfer?
      modifies this
      ensures (View(), out) == TransferStep(old(View()), op)
    {
      if op.amount <= 0 {
        return Rejected(InvalidAmount);
      }
      if op.source !in wallets || op.target !in wallets {
        return Rejected(NotFound);
      }
      if !wallets[op.source].HasEnough(op.amount) {
        return Rejected(InsufficientBalance);
      }
      var hash := "int-" + op.internalId;
      if HashTaken(rows, hash + "-from") || HashTaken(rows, hash + "-to") {
        return Rejected(DuplicateHash);
      }
      var (creditUsed, tonUsed) := Split(wallets[op.source], op.amount);
      wallets := wallets[op.source := Take(wallets[op.source], creditUsed, tonUsed)];
      wallets := wallets[op.target := Give(wallets[op.target], creditUsed, tonUsed)];
      out := Moved(|rows|, |rows| + 1);
      rows := rows + [Transaction(op.source, TxPayment, -op.amount, hash + "-from", "", "")];
      rows := rows + [Transaction(op.target, TxDeposit, op.amount, hash + "-to", "", "")];
    }

    method CreateWithdraw(op: Op) returns (out: Outcome)
      requires op.CreateWithdraw?
      modifies this
      ensures (View(), out) == CreateWithdrawStep(old(View()), op)
    {
      var total := op.amount + op.fee;
      if op.wallet !in wallets {
        return Rejected(NotFound);
      }
      var w := wallets[op.wallet];
      if !w.HasEnough(total) {
        return Rejected(InsufficientBalance);
      }
      wallets := wallets[op.wallet := w.(frozen := w.frozen + total)];
      out := Created(|requests|);
      requests := requests + [WithdrawRequest(op.wallet, op.amount, op.fee, WithdrawPending)];
    }

    method CompleteWithdraw(id: nat) returns (out: Outcome)
      modifies this
      ensures (View(), out) == FinishStep(old(View()), id, true)
    {
      if id >= |requests| {
        return Rejected(NotFound);
      }
      var r := requests[id];
      if r.walletId in wallets {
        var w := wallets[r.walletId];
        wallets := wallets[r.walletId := w.(ton := w.ton - r.Total(), frozen := w.frozen - r.Total())];
      }
      requests := requests[id := r.(status := WithdrawDone)];
      out := Updated;
    }

    method RejectWithdraw(id: nat) returns (out: Outcome)
      modifies this
      ensures (View(), out) == FinishStep(old(View()), id, false)
    {
      if id >= |requests| {
        return Rejected(NotFound);
      }
      var r := requests[id];
      if r.walletId in wallets {
        var w := wallets[r.walletId];
        wallets := wallets[r.walletId := w.(frozen := w.frozen - r.Total())];
      }
      requests := requests[id := r.(status := WithdrawRejected)];
      out := Updated;
    }
  }
}
