/** The double-entry ledger on top of the hash chain (ledger.go). One database
    transaction is one atomic step. */
module Ledger {
  import opened Text
  import opened Chain
  import opened Totals

  datatype State = State(ton: map<Uuid, int>, entries: seq<LedgerEntry>)

  datatype Error =
    | AmountNotPositive
    | SameWallet
    | FromWalletMissing
    | ToWalletMissing
    | WalletMissing
    | InsufficientBalance(have: int, need: int)

  datatype Outcome =
    | Transferred(debit: LedgerEntry, credit: LedgerEntry)
    | Deposited(entry: LedgerEntry)
    | Rejected(error: Error)

  datatype Op =
    | RecordTransfer(source: Uuid, target: Uuid, amount: int, txId: Uuid, ref: string, note: string)
    | RecordDeposit(wallet: Uuid, amount: int, txId: Uuid, txHash: string, fromAddr: string)

  // ----------------------------------------------------------------- one step

  function Blank(op: Op, wallet: Uuid, kind: string, balanceAfter: int): LedgerEntry {
    match op
    case RecordTransfer(_, _, amount, txId, ref, note) =>
      LedgerEntry(0, txId, wallet, kind, amount, balanceAfter, "", "", ref, note)
    case RecordDeposit(_, amount, txId, txHash, fromAddr) =>
      LedgerEntry(0, txId, wallet, kind, amount, balanceAfter, "", "", txHash, "deposit from " + fromAddr)
  }

  /** A row linked behind the table's last row. */
  function Linked(h: HashFn, t: seq<LedgerEntry>, e: LedgerEntry): LedgerEntry {
    var (prevSeq, prevHash) := LastChainEntry(t);
    LinkEntry(h, e, prevSeq, prevHash)
  }

  function TransferError(s: State, op: Op): Option<Error>
    requires op.RecordTransfer?
  {
    if op.amount <= 0 then Some(AmountNotPositive)
    else if op.source == op.target then Some(SameWallet)
    else if op.source !in s.ton then Some(FromWalletMissing)
    else if op.target !in s.ton then Some(ToWalletMissing)
    else if s.ton[op.source] < op.amount then Some(InsufficientBalance(s.ton[op.source], op.amount))
    else None
  }

  function DebitRow(h: HashFn, s: State, op: Op): LedgerEntry
    requires op.RecordTransfer? && TransferError(s, op).None?
  {
    Linked(h, s.entries, Blank(op, op.source, ENTRY_DEBIT, s.ton[op.source] - op.amount))
  }

  /** The credit row is linked to the debit row, not to the table. */
  function CreditRow(h: HashFn, s: State, op: Op): LedgerEntry
    requires op.RecordTransfer? && TransferError(s, op).None?
  {
    var debit := DebitRow(h, s, op);
    LinkEntry(h, Blank(op, op.target, ENTRY_CREDIT, s.ton[op.target] + op.amount), debit.seqNo, debit.hash)
  }

  function TransferStep(h: HashFn, s: State, op: Op): (State, Outcome)
    requires op.RecordTransfer?
  {
    var err := TransferError(s, op);
    if err.Some? then (s, Rejected(err.value))
    else
      var debit, credit := DebitRow(h, s, op), CreditRow(h, s, op);
      (State(s.ton[op.source := s.ton[op.source] - op.amount][op.target := s.ton[op.target] + op.amount],
             s.entries + [debit] + [credit]), Transferred(debit, credit))
  }

  function DepositStep(h: HashFn, s: State, op: Op): (State, Outcome)
    requires op.RecordDeposit?
  {
    if op.wallet !in s.ton then (s, Rejected(WalletMissing))
    else
      var after := s.ton[op.wallet] + op.amount;
      var entry := Linked(h, s.entries, Blank(op, op.wallet, ENTRY_CREDIT, after));
      (State(s.ton[op.wallet := after], s.entries + [entry]), Deposited(entry))
  }

  function Step(h: HashFn, s: State, op: Op): (State, Outcome) {
    match op
    case RecordTransfer(_, _, _, _, _, _) => TransferStep(h, s, op)
    case RecordDeposit(_, _, _, _, _) => DepositStep(h, s, op)
  }

  function Run(h: HashFn, s: State, ops: seq<Op>): State {
    if ops == [] then s else Step(h, Run(h, s, ops[..|ops| - 1]), ops[|ops| - 1]).0
  }

  /** Every wallet at zero, no rows. */
  function Opening(wallets: set<Uuid>): State {
    State(map w | w in wallets :: 0, [])
  }

  // -------------------------------------------------------------- what is kept

  function Contribution(e: LedgerEntry, w: Uuid, kind: string): int {
    if e.walletId == w && e.kind == kind then e.amountNano else 0
  }

  /** COALESCE(SUM(amount_nano), 0) over the rows of one wallet and type. */
  function SumOf(t: seq<LedgerEntry>, w: Uuid, kind: string): int {
    if t == [] then 0
    else
      var e := t[|t| - 1];
      SumOf(t[..|t| - 1], w, kind) + Contribution(e, w, kind)
  }

  function Balance(t: seq<LedgerEntry>, w: Uuid): int {
    SumOf(t, w, ENTRY_CREDIT) - SumOf(t, w, ENTRY_DEBIT)
  }

  function VerifyLedgerBalance(s: State, w: Uuid): Option<bool> {
    if w !in s.ton then None else Some(Balance(s.entries, w) == s.ton[w])
  }

  /** Row k's BalanceAfter is its wallet's balance over the rows up to and with k. */
  predicate RunningBalances(t: seq<LedgerEntry>) {
    forall k | 0 <= k < |t| :: t[k].balanceAfter == Balance(t[..k + 1], t[k].walletId)
  }

  predicate Reconciled(h: HashFn, s: State) {
    && Accepted(h, s.entries)
    && RunningBalances(s.entries)
    && forall w | w in s.ton :: VerifyLedgerBalance(s, w) == Some(true)
  }

  function DepositTotal(wallets: set<Uuid>, ops: seq<Op>): int {
    if ops == [] then 0
    else
      var op := ops[|ops| - 1];
      DepositTotal(wallets, ops[..|ops| - 1]) +
        if op.RecordDeposit? && op.wallet in wallets then op.amount else 0
  }

  // --------------------------------------------------------------------- class

  class LedgerStore {
    const hash: HashFn
    var ton: map<Uuid, int>
    var entries: seq<LedgerEntry>

    function View(): State
      reads this
    {
      State(ton, entries)
    }

    constructor (hash: HashFn, wallets: set<Uuid>)
      ensures this.hash == hash && View() == Opening(wallets)
    {
      this.hash := hash;
      ton := map w | w in wallets :: 0;
      entries := [];
    }

    method RecordTransfer(op: Op) returns (out: Outcome)
      requires op.RecordTransfer?
      modifies this
      ensures (View(), out) == TransferStep(hash, old(View()), op)
    {
      if op.amount <= 0 {
        return Rejected(AmountNotPositive);
      }
      if op.source == op.target {
        return Rejected(SameWallet);
      }
      if op.source !in ton {
        return Rejected(FromWalletMissing);
      }
      if op.target !in ton {
        return Rejected(ToWalletMissing);
      }
      if ton[op.source] < op.amount {
        return Rejected(InsufficientBalance(ton[op.source], op.amount));
      }
      out := WriteRows(op);
    }

    /** The two linked rows and both balances, with every check passed. */
    method WriteRows(op: Op) returns (out: Outcome)
      requires op.RecordTransfer? && TransferError(View(), op).None?
      modifies this
      ensures (View(), out) == TransferStep(hash, old(View()), op)
    {
      var fromAfter, toAfter := ton[op.source] - op.amount, ton[op.target] + op.amount;
      var (prevSeq, prevHash) := LastChainEntry(entries);
      var debit := LinkEntry(hash, Blank(op, op.source, ENTRY_DEBIT, fromAfter), prevSeq, prevHash);
      var credit := LinkEntry(hash, Blank(op, op.target, ENTRY_CREDIT, toAfter), debit.seqNo, debit.hash);
      assert debit == DebitRow(hash, View(), op) && credit == CreditRow(hash, View(), op);
      entries := entries + [debit];
      entries := entries + [credit];
      ton := ton[op.source := fromAfter];
      ton := ton[op.target := toAfter];
      out := Transferred(debit, credit);
    }

    method RecordDeposit(op: Op) returns (out: Outcome)
      requires op.RecordDeposit?
      modifies this
      ensures (View(), out) == DepositStep(hash, old(View()), op)
    {
      if op.wallet !in ton {
        return Rejected(WalletMissing);
      }
      var after := ton[op.wallet] + op.amount;
      var (prevSeq, prevHash) := LastChainEntry(entries);
      var entry := LinkEntry(hash, Blank(op, op.wallet, ENTRY_CREDIT, after), prevSeq, prevHash);
      entries := entries + [entry];
      ton := ton[op.wallet := after];
      out := Deposited(entry);
    }
  }

  // -------------------------------------------------------------------- proofs

  function Signed(e: LedgerEntry): int {
    if e.kind == ENTRY_CREDIT then e.amountNano else -e.amountNano
  }

  predicate TableOk(h: HashFn, t: seq<LedgerEntry>) {
    Accepted(h, t) && RunningBalances(t)
  }

  /** Linking a row that carries its wallet's new balance keeps the table good and
      moves that wallet's balance only. */
  lemma {:induction false} LinkKeepsTable(h: HashFn, t: seq<LedgerEntry>, e: LedgerEntry)
    requires TableOk(h, t) && e.kind in {ENTRY_CREDIT, ENTRY_DEBIT}
    requires e.balanceAfter == Balance(t, e.walletId) + Signed(e)
    ensures var u := t + [Linked(h, t, e)];
      && TableOk(h, u)
      && forall w :: Balance(u, w) == Balance(t, w) + if w == e.walletId then Signed(e) else 0
  {
    LinkIsAccepted(h, t, e);
    var linked := Linked(h, t, e);
    var u := t + [linked];
    Appended(t, linked);
    forall k | 0 <= k < |u| ensures u[k].balanceAfter == Balance(u[..k + 1], u[k].walletId) {
      assert u[..k + 1] == if k < |t| then t[..k + 1] else u;
    }
  }

  lemma Appended(t: seq<LedgerEntry>, e: LedgerEntry)
    ensures forall w, kind :: SumOf(t + [e], w, kind) == SumOf(t, w, kind) + Contribution(e, w, kind)
  {}

  lemma LinkIsAccepted(h: HashFn, t: seq<LedgerEntry>, e: LedgerEntry)
    requires Accepted(h, t)
    ensures Accepted(h, t + [Linked(h, t, e)])
  {
    var u := t + [Linked(h, t, e)];
    if t != [] {
      assert GoodAt(h, t, |t| - 1);
    }
    forall k: nat | k < |u| ensures GoodAt(h, u, k) {
      if k < |t| {
        assert GoodAt(h, t, k);
      }
    }
  }

  /** Each stored balance is the ledger's. */
  predicate Balanced(ton: map<Uuid, int>, t: seq<LedgerEntry>) {
    forall w | w in ton :: Balance(t, w) == ton[w]
  }

  lemma BalancedNext(ton: map<Uuid, int>, t: seq<LedgerEntry>, u: seq<LedgerEntry>, wallet: Uuid, n: int)
    requires Balanced(ton, t) && wallet in ton
    requires forall w :: Balance(u, w) == Balance(t, w) + if w == wallet then n else 0
    ensures Balanced(ton[wallet := ton[wallet] + n], u)
  {}

  lemma ReconciledIsBalanced(h: HashFn, s: State)
    ensures Reconciled(h, s) <==> TableOk(h, s.entries) && Balanced(s.ton, s.entries)
  {
    assert forall w | w in s.ton :: VerifyLedgerBalance(s, w) == Some(true) <==> Balance(s.entries, w) == s.ton[w];
  }

  lemma DepositReconciles(h: HashFn, s: State, op: Op)
    requires Reconciled(h, s) && op.RecordDeposit? && op.wallet in s.ton
    ensures Reconciled(h, DepositStep(h, s, op).0)
  {
    var e := Blank(op, op.wallet, ENTRY_CREDIT, s.ton[op.wallet] + op.amount);
    var t := DepositStep(h, s, op).0;
    ReconciledIsBalanced(h, s);
    LinkKeepsTable(h, s.entries, e);
    BalancedNext(s.ton, s.entries, t.entries, op.wallet, op.amount);
    ReconciledIsBalanced(h, t);
  }

  /** The state after a transfer: two links, and both balances. */
  lemma TransferLinks(h: HashFn, s: State, op: Op)
    requires op.RecordTransfer? && TransferError(s, op).None?
    ensures var d := Blank(op, op.source, ENTRY_DEBIT, s.ton[op.source] - op.amount);
      var c := Blank(op, op.target, ENTRY_CREDIT, s.ton[op.target] + op.amount);
      var mid := s.entries + [Linked(h, s.entries, d)];
      TransferStep(h, s, op).0 ==
        State(s.ton[op.source := s.ton[op.source] - op.amount][op.target := s.ton[op.target] + op.amount],
              mid + [Linked(h, mid, c)])
  {}

  lemma TransferReconciles(h: HashFn, s: State, op: Op)
    requires Reconciled(h, s) && op.RecordTransfer? && TransferError(s, op).None?
    ensures Reconciled(h, TransferStep(h, s, op).0)
  {
    var d := Blank(op, op.source, ENTRY_DEBIT, s.ton[op.source] - op.amount);
    var c := Blank(op, op.target, ENTRY_CREDIT, s.ton[op.target] + op.amount);
    ReconciledIsBalanced(h, s);
    TwoLinksBalance(h, s.ton, s.entries, d, c, op.amount);
    TransferLinks(h, s, op);
    ReconciledIsBalanced(h, TransferStep(h, s, op).0);
  }

  /** A debit row and then a credit row of the same amount. */
  lemma TwoLinksBalance(h: HashFn, ton: map<Uuid, int>, t: seq<LedgerEntry>, d: LedgerEntry, c: LedgerEntry, n: int)
    requires TableOk(h, t) && Balanced(ton, t) && d.kind == ENTRY_DEBIT && c.kind == ENTRY_CREDIT
    requires d.walletId in ton && c.walletId in ton && d.walletId != c.walletId && d.amountNano == c.amountNano == n
    requires d.balanceAfter == ton[d.walletId] - n && c.balanceAfter == ton[c.walletId] + n
    ensures var mid := t + [Linked(h, t, d)];
      var u := mid + [Linked(h, mid, c)];
      TableOk(h, u) && Balanced(ton[d.walletId := ton[d.walletId] - n][c.walletId := ton[c.walletId] + n], u)
  {
    var mid := t + [Linked(h, t, d)];
    LinkKeepsTable(h, t, d);
    BalancedNext(ton, t, mid, d.walletId, -n);
    LinkKeepsTable(h, mid, c);
    BalancedNext(ton[d.walletId := ton[d.walletId] - n], mid, mid + [Linked(h, mid, c)], c.walletId, n);
  }

  lemma {:induction false} StepReconciles(h: HashFn, s: State, op: Op)
    requires Reconciled(h, s)
    ensures Reconciled(h, Step(h, s, op).0)
  {
    match op
    case RecordDeposit(wallet, _, _, _, _) =>
      if wallet in s.ton {
        DepositReconciles(h, s, op);
      }
    case RecordTransfer(_, _, _, _, _, _) =>
      if TransferError(s, op).None? {
        TransferReconciles(h, s, op);
      }
  }

  lemma DepositConserves(h: HashFn, s: State, op: Op)
    requires op.RecordDeposit?
    ensures var ton := DepositStep(h, s, op).0.ton;
      ton.Keys == s.ton.Keys && Sum(ton) == Sum(s.ton) + if op.wallet in s.ton then op.amount else 0
  {
    if op.wallet in s.ton {
      SumUpdate(s.ton, op.wallet, s.ton[op.wallet] + op.amount);
    }
  }

  lemma TransferConserves(h: HashFn, s: State, op: Op)
    requires op.RecordTransfer?
    ensures var ton := TransferStep(h, s, op).0.ton;
      ton.Keys == s.ton.Keys && Sum(ton) == Sum(s.ton)
  {
    if TransferError(s, op).None? {
      MoveConserves(s.ton, op.source, op.target, op.amount);
    }
  }

  lemma StepConserves(h: HashFn, s: State, op: Op)
    ensures var s' := Step(h, s, op).0;
      && s'.ton.Keys == s.ton.Keys
      && Sum(s'.ton) == Sum(s.ton) + if op.RecordDeposit? && op.wallet in s.ton then op.amount else 0
  {
    if op.RecordDeposit? {
      DepositConserves(h, s, op);
    } else {
      TransferConserves(h, s, op);
    }
  }

  /** A transfer is taken exactly when it is for something, between two wallets that are
      there, and the sender has that much; it moves that much and writes a debit and a
      credit row of it. */
  lemma TransferIsTakenIff(h: HashFn, s: State, op: Op)
    requires op.RecordTransfer?
    ensures var t := Step(h, s, op).0;
      && (|t.entries| == |s.entries| + 2 <==>
            op.amount > 0 && op.source != op.target && op.source in s.ton && op.target in s.ton
            && s.ton[op.source] >= op.amount)
      && (|t.entries| != |s.entries| + 2 ==> t == s)
      && (|t.entries| == |s.entries| + 2 ==>
            && t.ton.Keys == s.ton.Keys
            && t.ton[op.source] == s.ton[op.source] - op.amount && t.ton[op.target] == s.ton[op.target] + op.amount
            && (forall w | w in s.ton && w != op.source && w != op.target :: t.ton[w] == s.ton[w])
            && RowsOf(t.entries[|s.entries|], t.entries[|s.entries| + 1], op))
  {}

  predicate RowsOf(debit: LedgerEntry, credit: LedgerEntry, op: Op)
    requires op.RecordTransfer?
  {
    && debit.walletId == op.source && debit.kind == ENTRY_DEBIT && debit.amountNano == op.amount
    && credit.walletId == op.target && credit.kind == ENTRY_CREDIT && credit.amountNano == op.amount
    && debit.transactionId == credit.transactionId == op.txId
  }

  /** A deposit is taken exactly when its wallet is there; it raises that balance alone and
      writes one credit row that names its chain hash. */
  lemma DepositIsTakenIff(h: HashFn, s: State, op: Op)
    requires op.RecordDeposit?
    ensures var t := Step(h, s, op).0;
      && (|t.entries| == |s.entries| + 1 <==> op.wallet in s.ton)
      && (|t.entries| != |s.entries| + 1 ==> t == s)
      && (|t.entries| == |s.entries| + 1 ==>
            && t.ton.Keys == s.ton.Keys && t.ton[op.wallet] == s.ton[op.wallet] + op.amount
            && (forall w | w in s.ton && w != op.wallet :: t.ton[w] == s.ton[w])
            && DepositRow(t.entries[|s.entries|], op))
  {}

  predicate DepositRow(credit: LedgerEntry, op: Op)
    requires op.RecordDeposit?
  {
    && credit.walletId == op.wallet && credit.kind == ENTRY_CREDIT && credit.amountNano == op.amount
    && credit.transactionId == op.txId && credit.ref == op.txHash
  }

  lemma MoveConserves(ton: map<Uuid, int>, a: Uuid, b: Uuid, n: int)
    requires a in ton && b in ton && a != b
    ensures Sum(ton[a := ton[a] - n][b := ton[b] + n]) == Sum(ton)
  {
    SumUpdate(ton, a, ton[a] - n);
    SumUpdate(ton[a := ton[a] - n], b, ton[b] + n);
  }

  /** Every run from zero, whatever the amounts: the chain stays acceptable, each
      stored and each running balance is the ledger's, and the total held is the
      total deposited. */
  lemma {:induction false} RunReconciles(h: HashFn, wallets: set<Uuid>, ops: seq<Op>)
    ensures var s := Run(h, Opening(wallets), ops);
      && Reconciled(h, s)
      && s.ton.Keys == wallets
      && Sum(s.ton) == DepositTotal(wallets, ops)
  {
    if ops == [] {
      SumOfZeros(Opening(wallets).ton);
    } else {
      var init := ops[..|ops| - 1];
      RunReconciles(h, wallets, init);
      StepReconciles(h, Run(h, Opening(wallets), init), ops[|ops| - 1]);
      StepConserves(h, Run(h, Opening(wallets), init), ops[|ops| - 1]);
    }
  }

  /** With deposits that are not negative no balance ever is, and none exceeds the
      total deposited: when that total fits 64 bits, every balance and every
      BalanceAfter the program computes does. */
  lemma {:induction false} RunStaysSolvent(h: HashFn, wallets: set<Uuid>, ops: seq<Op>)
    requires forall op | op in ops :: op.RecordDeposit? ==> op.amount >= 0
    ensures var ton := Run(h, Opening(wallets), ops).ton;
      && NonNegative(ton)
      && forall w | w in ton :: ton[w] <= DepositTotal(wallets, ops)
  {
    if ops != [] {
      var init := ops[..|ops| - 1];
      var before := Run(h, Opening(wallets), init);
      RunStaysSolvent(h, wallets, init);
      assert ops[|ops| - 1] in ops;
      StepStaysSolvent(h, before, ops[|ops| - 1]);
    }
    RunReconciles(h, wallets, ops);
    SumDominates(Run(h, Opening(wallets), ops).ton);
  }

  lemma StepStaysSolvent(h: HashFn, s: State, op: Op)
    requires NonNegative(s.ton) && (op.RecordDeposit? ==> op.amount >= 0)
    ensures NonNegative(Step(h, s, op).0.ton)
  {}

  /** A wallet's latest row shows its stored balance. */
  lemma {:induction false} LatestRowShowsBalance(h: HashFn, s: State, k: nat)
    requires Reconciled(h, s) && k < |s.entries| && s.entries[k].walletId in s.ton
    requires forall j | k < j < |s.entries| :: s.entries[j].walletId != s.entries[k].walletId
    ensures s.entries[k].balanceAfter == s.ton[s.entries[k].walletId]
  {
    var w := s.entries[k].walletId;
    OtherRowsDoNotMatter(s.entries, w, k + 1);
    assert VerifyLedgerBalance(s, w) == Some(true);
  }

  lemma {:induction false} OtherRowsDoNotMatter(t: seq<LedgerEntry>, w: Uuid, n: nat)
    requires n <= |t| && forall j | n <= j < |t| :: t[j].walletId != w
    ensures forall kind :: SumOf(t, w, kind) == SumOf(t[..n], w, kind)
  {
    if n < |t| {
      OtherRowsDoNotMatter(t[..|t| - 1], w, n);
      assert t[..|t| - 1][..n] == t[..n];
    } else {
      assert t[..n] == t;
    }
  }

  // ------------------------------------------------- the "sum is zero" rule

  function SignedSum(t: seq<LedgerEntry>): int {
    if t == [] then 0
    else
      var e := t[|t| - 1];
      SignedSum(t[..|t| - 1]) + Signed(e)
  }

  /** The ledger's credits minus its debits are what was deposited, so the stated
      rule "the entries sum to zero" holds exactly when nothing was. */
  lemma {:induction false} EntriesSumToDeposits(h: HashFn, wallets: set<Uuid>, ops: seq<Op>)
    ensures SignedSum(Run(h, Opening(wallets), ops).entries) == DepositTotal(wallets, ops)
  {
    if ops != [] {
      var init := ops[..|ops| - 1];
      EntriesSumToDeposits(h, wallets, init);
      RunReconciles(h, wallets, init);
      StepSigned(h, Run(h, Opening(wallets), init), ops[|ops| - 1]);
    }
  }

  lemma StepSigned(h: HashFn, s: State, op: Op)
    ensures SignedSum(Step(h, s, op).0.entries) ==
      SignedSum(s.entries) + if op.RecordDeposit? && op.wallet in s.ton then op.amount else 0
  {}
}
