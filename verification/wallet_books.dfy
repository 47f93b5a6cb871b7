/** What every run of the wallet operations keeps: the books reconcile, frozen
    money stays covered, totals are conserved. */
module WalletBooks {
  import opened Text
  import opened Totals
  import opened Wallets

  function RowSum(rows: seq<Transaction>, w: Uuid): int {
    if rows == [] then 0
    else
      var t := rows[|rows| - 1];
      RowSum(rows[..|rows| - 1], w) + if t.walletId == w then t.amount else 0
  }

  function Share(r: WithdrawRequest, w: Uuid, status: WithdrawStatus): int {
    if r.walletId == w && r.status == status then r.Total() else 0
  }

  /** Amount + Fee over one wallet's requests in one status. */
  function RequestSum(requests: seq<WithdrawRequest>, w: Uuid, status: WithdrawStatus): int {
    if requests == [] then 0
    else RequestSum(requests[..|requests| - 1], w, status) + Share(requests[|requests| - 1], w, status)
  }

  predicate WalletReconciles(s: State, w: Uuid)
    requires w in s.wallets
  {
    var x := s.wallets[w];
    && x.ton + x.credit == RowSum(s.rows, w) - RequestSum(s.requests, w, WithdrawDone)
    && x.frozen == RequestSum(s.requests, w, WithdrawPending)
    && x.credit >= 0
  }

  predicate Books(s: State) {
    && (forall w | w in s.wallets :: WalletReconciles(s, w))
    && (forall r | r in s.requests :: r.walletId in s.wallets)
  }

  predicate IsFinish(op: Op) {
    op.CompleteWithdraw? || op.RejectWithdraw?
  }

  /** A finishing call meets a request that is still pending (or none at all). */
  predicate FinishesPending(s: State, op: Op) {
    IsFinish(op) ==> op.request >= |s.requests| || s.requests[op.request].status == WithdrawPending
  }

  // ------------------------------------------------------------ sums and updates

  lemma RowsAppended(rows: seq<Transaction>, t: Transaction)
    ensures forall w :: RowSum(rows + [t], w) == RowSum(rows, w) + if t.walletId == w then t.amount else 0
  {}

  lemma RequestAppended(rs: seq<WithdrawRequest>, r: WithdrawRequest)
    ensures forall w, st :: RequestSum(rs + [r], w, st) == RequestSum(rs, w, st) + Share(r, w, st)
  {}

  lemma {:induction false} RequestReplaced(rs: seq<WithdrawRequest>, i: nat, r: WithdrawRequest)
    requires i < |rs|
    ensures forall w, st ::
      RequestSum(rs[i := r], w, st) == RequestSum(rs, w, st) - Share(rs[i], w, st) + Share(r, w, st)
  {
    var last := |rs| - 1;
    if i == last {
      assert rs[i := r][..last] == rs[..last];
    } else {
      RequestReplaced(rs[..last], i, r);
      assert rs[i := r][..last] == rs[..last][i := r];
    }
  }

  // ------------------------------------------------------------- reconciliation

  /** One more row, and its wallet's TON+Credit moved by the row's amount. */
  lemma RowKeepsBooks(s: State, s': State, row: Transaction)
    requires Books(s) && s'.rows == s.rows + [row] && s'.requests == s.requests && s'.wallets.Keys == s.wallets.Keys
    requires forall w | w in s.wallets ::
      && s'.wallets[w].frozen == s.wallets[w].frozen
      && (s.wallets[w].credit >= 0 ==> s'.wallets[w].credit >= 0)
      && s'.wallets[w].ton + s'.wallets[w].credit ==
         s.wallets[w].ton + s.wallets[w].credit + if w == row.walletId then row.amount else 0
    ensures Books(s')
  {
    RowsAppended(s.rows, row);
    forall w | w in s'.wallets
      ensures WalletReconciles(s', w)
    {
      assert WalletReconciles(s, w);
    }
  }

  lemma DepositKeepsBooks(s: State, op: Op)
    requires Books(s) && op.Deposit?
    ensures Books(DepositStep(s, op).0)
  {
    var s' := DepositStep(s, op).0;
    if s' != s {
      RowKeepsBooks(s, s', s'.rows[|s.rows|]);
    }
  }

  lemma DeductKeepsBooks(s: State, op: Op)
    requires Books(s) && op.Deduct?
    ensures Books(DeductStep(s, op).0)
  {
    var s' := DeductStep(s, op).0;
    if s' != s {
      assert WalletReconciles(s, op.wallet);
      RowKeepsBooks(s, s', s'.rows[|s.rows|]);
    }
  }

  lemma AddCreditKeepsBooks(s: State, op: Op)
    requires Books(s) && op.AddCredit?
    ensures Books(AddCreditStep(s, op).0)
  {
    var s' := AddCreditStep(s, op).0;
    if s' != s {
      RowKeepsBooks(s, s', s'.rows[|s.rows|]);
    }
  }

  lemma TransferKeepsBooks(s: State, op: Op)
    requires Books(s) && op.Transfer?
    ensures Books(TransferStep(s, op).0)
  {
    var s' := TransferStep(s, op).0;
    if s' != s {
      var fromRow, toRow := s'.rows[|s.rows|], s'.rows[|s.rows| + 1];
      RowsAppended(s.rows, fromRow);
      RowsAppended(s.rows + [fromRow], toRow);
      assert forall w | w in s.wallets :: WalletReconciles(s, w);
      MoveShifts(s.wallets, op.source, op.target, op.amount);
      forall w | w in s'.wallets ensures WalletReconciles(s', w) {}
    }
  }

  /** A move takes the amount from one wallet's TON+Credit and gives it to the other's. */
  lemma MoveShifts(ws: map<Uuid, Wallet>, source: Uuid, target: Uuid, n: int)
    requires source in ws && target in ws && n > 0 && ws[source].credit >= 0
    ensures var ws' := Move(ws, source, target, n);
      && ws'.Keys == ws.Keys
      && forall w | w in ws ::
        && ws'[w].frozen == ws[w].frozen
        && (ws[w].credit >= 0 ==> ws'[w].credit >= 0)
        && ws'[w].ton + ws'[w].credit ==
           ws[w].ton + ws[w].credit - (if w == source then n else 0) + (if w == target then n else 0)
  {}

  lemma CreateKeepsBooks(s: State, op: Op)
    requires Books(s) && op.CreateWithdraw?
    ensures Books(CreateWithdrawStep(s, op).0)
  {
    var s' := CreateWithdrawStep(s, op).0;
    if s' != s {
      RequestAppended(s.requests, s'.requests[|s.requests|]);
      forall w | w in s'.wallets
        ensures WalletReconciles(s', w)
      {
        assert WalletReconciles(s, w);
      }
    }
  }

  /** Finishing keeps the books exactly when the request is pending (or carries no
      money): the code itself does not check. */
  lemma FinishKeepsBooksIff(s: State, id: nat, done: bool)
    requires Books(s) && id < |s.requests|
    ensures Books(FinishStep(s, id, done).0) <==>
      (s.requests[id].status == WithdrawPending || s.requests[id].Total() == 0)
  {
    var r, s' := s.requests[id], FinishStep(s, id, done).0;
    assert r in s.requests;
    RequestReplaced(s.requests, id, s'.requests[id]);
    assert forall w | w in s.wallets :: WalletReconciles(s, w);
    if r.status == WithdrawPending || r.Total() == 0 {
      forall w | w in s'.wallets ensures WalletReconciles(s', w) {}
      assert Books(s');
    } else {
      assert !WalletReconciles(s', r.walletId);
    }
  }

  lemma StepKeepsBooks(s: State, op: Op)
    requires Books(s) && FinishesPending(s, op)
    ensures Books(Step(s, op).0)
  {
    match op
    case Deposit(_, _, _) => DepositKeepsBooks(s, op);
    case Deduct(_, _, _, _, _) => DeductKeepsBooks(s, op);
    case AddCredit(_, _, _) => AddCreditKeepsBooks(s, op);
    case Transfer(_, _, _, _) => TransferKeepsBooks(s, op);
    case CreateWithdraw(_, _, _) => CreateKeepsBooks(s, op);
    case CompleteWithdraw(id) => if id < |s.requests| { FinishKeepsBooksIff(s, id, true); }
    case RejectWithdraw(id) => if id < |s.requests| { FinishKeepsBooksIff(s, id, false); }
  }

  predicate FinishedOnce(s: State, ops: seq<Op>) {
    forall i | 0 <= i < |ops| :: FinishesPending(Run(s, ops[..i]), ops[i])
  }

  /** Every run from zero in which each request is finished at most once: per wallet
      TON+Credit is the sum of its rows minus the done withdrawals, Frozen is the
      sum of the pending ones, Credit is not negative. */
  lemma {:induction false} RunKeepsBooks(wallets: set<Uuid>, ops: seq<Op>)
    requires FinishedOnce(Opening(wallets), ops)
    ensures Books(Run(Opening(wallets), ops))
  {
    if ops != [] {
      var n := |ops| - 1;
      FinishedOncePrefix(Opening(wallets), ops, n);
      RunKeepsBooks(wallets, ops[..n]);
      StepKeepsBooks(Run(Opening(wallets), ops[..n]), ops[n]);
    }
  }

  lemma {:induction false} FinishedOncePrefix(s: State, ops: seq<Op>, n: nat)
    requires FinishedOnce(s, ops) && n <= |ops|
    ensures FinishedOnce(s, ops[..n])
  {
    forall i | 0 <= i < n ensures FinishesPending(Run(s, ops[..n][..i]), ops[..n][i]) {
      assert ops[..n][..i] == ops[..i];
    }
  }

  // ------------------------------------------------------------------ solvency

  /** The amounts callers may pass: deposits and frozen totals are not negative
      (the store checks the other amounts itself). */
  predicate SaneAmounts(op: Op) {
    (op.Deposit? ==> op.amount >= 0) && (op.CreateWithdraw? ==> op.amount + op.fee >= 0)
  }

  predicate Solvent(s: State) {
    && (forall w | w in s.wallets :: s.wallets[w].HasEnough(0) && s.wallets[w].credit >= 0)
    && (forall r | r in s.requests :: r.Total() >= 0)
  }

  lemma FinishKeepsSolvent(s: State, id: nat, done: bool)
    requires Solvent(s)
    ensures Solvent(FinishStep(s, id, done).0)
  {
    if id < |s.requests| {
      assert s.requests[id] in s.requests;
    }
  }

  lemma TransferKeepsSolvent(s: State, op: Op)
    requires Solvent(s) && op.Transfer?
    ensures Solvent(TransferStep(s, op).0)
  {
    if TransferStep(s, op).1.Moved? {
      MoveShifts(s.wallets, op.source, op.target, op.amount);
    }
  }

  lemma DeductKeepsSolvent(s: State, op: Op)
    requires Solvent(s) && op.Deduct?
    ensures Solvent(DeductStep(s, op).0)
  {}

  lemma StepKeepsSolvent(s: State, op: Op)
    requires Solvent(s) && SaneAmounts(op)
    ensures Solvent(Step(s, op).0)
  {
    match op
    case Deposit(_, _, _) =>
    case AddCredit(_, _, _) =>
    case CreateWithdraw(_, _, _) =>
    case Deduct(_, _, _, _, _) => DeductKeepsSolvent(s, op);
    case Transfer(_, _, _, _) => TransferKeepsSolvent(s, op);
    case CompleteWithdraw(id) => FinishKeepsSolvent(s, id, true);
    case RejectWithdraw(id) => FinishKeepsSolvent(s, id, false);
  }

  /** TON is at least Frozen, and Frozen is not negative. */
  predicate Covered(s: State) {
    forall w | w in s.wallets :: s.wallets[w].ton >= s.wallets[w].frozen >= 0
  }

  /** If the withdrawal is created, TON alone, not TON and credit, covers it. */
  predicate TonCovers(s: State, op: Op) {
    op.CreateWithdraw? && CreateWithdrawStep(s, op).1.Created? ==>
      s.wallets[op.wallet].ton - s.wallets[op.wallet].frozen >= op.amount + op.fee
  }

  /** An accepted withdrawal leaves frozen money covered exactly when TON alone
      covered it before; the code asks TON and credit together. */
  lemma CreateKeepsCoveredIff(s: State, op: Op)
    requires Covered(s) && op.CreateWithdraw? && CreateWithdrawStep(s, op).1.Created?
    requires SaneAmounts(op)
    ensures Covered(CreateWithdrawStep(s, op).0) <==> TonCovers(s, op)
  {
    var s' := CreateWithdrawStep(s, op).0;
    assert Covered(s') ==> s'.wallets[op.wallet].ton >= s'.wallets[op.wallet].frozen;
  }

  lemma StepKeepsCovered(s: State, op: Op)
    requires Books(s) && Covered(s) && Solvent(s) && SaneAmounts(op)
    requires FinishesPending(s, op) && TonCovers(s, op)
    ensures Covered(Step(s, op).0)
  {
    match op
    case Deposit(_, _, _) =>
    case AddCredit(_, _, _) =>
    case CreateWithdraw(_, _, _) =>
    case Deduct(_, _, _, _, _) => DeductKeepsCovered(s, op);
    case Transfer(_, _, _, _) => TransferKeepsCovered(s, op);
    case CompleteWithdraw(id) => FinishKeepsCovered(s, id, true);
    case RejectWithdraw(id) => FinishKeepsCovered(s, id, false);
  }

  lemma DeductKeepsCovered(s: State, op: Op)
    requires Covered(s) && Solvent(s) && op.Deduct?
    ensures Covered(DeductStep(s, op).0)
  {}

  lemma TransferKeepsCovered(s: State, op: Op)
    requires Covered(s) && Solvent(s) && op.Transfer?
    ensures Covered(TransferStep(s, op).0)
  {}

  lemma FinishKeepsCovered(s: State, id: nat, done: bool)
    requires Books(s) && Covered(s) && Solvent(s)
    requires id < |s.requests| ==> s.requests[id].status == WithdrawPending
    ensures Covered(FinishStep(s, id, done).0)
  {
    if id < |s.requests| {
      var r, t := s.requests[id], FinishStep(s, id, done).0;
      assert r in s.requests;
      FinishKeepsBooksIff(s, id, done);
      FinishKeepsSolvent(s, id, done);
      FrozenNotNegative(t, r.walletId);
    }
  }

  lemma FrozenNotNegative(s: State, w: Uuid)
    requires Books(s) && Solvent(s) && w in s.wallets
    ensures s.wallets[w].frozen >= 0
  {
    PendingNotNegative(s.requests, w);
    assert WalletReconciles(s, w);
  }

  lemma {:induction false} PendingNotNegative(rs: seq<WithdrawRequest>, w: Uuid)
    requires forall r | r in rs :: r.Total() >= 0
    ensures RequestSum(rs, w, WithdrawPending) >= 0
  {
    if rs != [] {
      assert rs[|rs| - 1] in rs;
      PendingNotNegative(rs[..|rs| - 1], w);
    }
  }

  predicate ProperRun(s: State, ops: seq<Op>) {
    FinishedOnce(s, ops) && forall op | op in ops :: SaneAmounts(op)
  }

  /** Every proper run keeps TON+Credit-Frozen from going negative and Frozen too. */
  lemma {:induction false} RunStaysSolvent(wallets: set<Uuid>, ops: seq<Op>)
    requires ProperRun(Opening(wallets), ops)
    ensures var s := Run(Opening(wallets), ops);
      Solvent(s) && forall w | w in s.wallets :: s.wallets[w].frozen >= 0
  {
    RunIsSolvent(wallets, ops);
    RunKeepsBooks(wallets, ops);
    var s := Run(Opening(wallets), ops);
    forall w | w in s.wallets ensures s.wallets[w].frozen >= 0 {
      FrozenNotNegative(s, w);
    }
  }

  lemma {:induction false} RunIsSolvent(wallets: set<Uuid>, ops: seq<Op>)
    requires forall op | op in ops :: SaneAmounts(op)
    ensures Solvent(Run(Opening(wallets), ops))
  {
    if ops != [] {
      RunIsSolvent(wallets, ops[..|ops| - 1]);
      assert ops[|ops| - 1] in ops;
      StepKeepsSolvent(Run(Opening(wallets), ops[..|ops| - 1]), ops[|ops| - 1]);
    }
  }

  /** Covered after every operation of the run. */
  predicate AlwaysCovered(s: State, ops: seq<Op>)
    decreases |ops|
  {
    Covered(Run(s, ops)) && (ops == [] || AlwaysCovered(s, ops[..|ops| - 1]))
  }

  /** TON alone covered every withdrawal the run created. */
  predicate AlwaysTonCovers(s: State, ops: seq<Op>)
    decreases |ops|
  {
    ops == [] ||
    (TonCovers(Run(s, ops[..|ops| - 1]), ops[|ops| - 1]) && AlwaysTonCovers(s, ops[..|ops| - 1]))
  }

  lemma SanePrefix(ops: seq<Op>)
    requires ops != [] && forall op | op in ops :: SaneAmounts(op)
    ensures SaneAmounts(ops[|ops| - 1]) && forall op | op in ops[..|ops| - 1] :: SaneAmounts(op)
  {
    assert ops[|ops| - 1] in ops;
    assert forall op | op in ops[..|ops| - 1] :: op in ops;
  }

  /** A proper run keeps TON at least Frozen throughout if and only if TON alone covered
      every withdrawal that was created in it. */
  lemma {:induction false} RunStaysCoveredIff(wallets: set<Uuid>, ops: seq<Op>)
    requires ProperRun(Opening(wallets), ops)
    ensures AlwaysCovered(Opening(wallets), ops) <==> AlwaysTonCovers(Opening(wallets), ops)
    decreases |ops|
  {
    if ops != [] {
      var n := |ops| - 1;
      var before := Run(Opening(wallets), ops[..n]);
      FinishedOncePrefix(Opening(wallets), ops, n);
      SanePrefix(ops);
      RunStaysCoveredIff(wallets, ops[..n]);
      RunKeepsBooks(wallets, ops[..n]);
      RunIsSolvent(wallets, ops[..n]);
      if Covered(before) {
        assert FinishesPending(before, ops[n]);
        StepCoveredIff(before, ops[n]);
      }
    }
  }

  lemma StepCoveredIff(s: State, op: Op)
    requires Books(s) && Covered(s) && Solvent(s) && SaneAmounts(op) && FinishesPending(s, op)
    ensures Covered(Step(s, op).0) <==> TonCovers(s, op)
  {
    if TonCovers(s, op) {
      StepKeepsCovered(s, op);
    } else {
      CreateKeepsCoveredIff(s, op);
    }
  }

  /** So when withdrawals are created only against TON that covers them, TON stays at
      least Frozen in every proper run, refused calls included. */
  lemma {:induction false} RunStaysCovered(wallets: set<Uuid>, ops: seq<Op>)
    requires ProperRun(Opening(wallets), ops) && AlwaysTonCovers(Opening(wallets), ops)
    ensures Covered(Run(Opening(wallets), ops))
  {
    RunStaysCoveredIff(wallets, ops);
  }

  lemma CreditGiven(w: Uuid, n: int, id: string)
    requires n > 0
    ensures var s := AddCreditStep(Opening({w}), AddCredit(w, n, id)).0;
      s.wallets == map[w := Wallet(0, n, 0)] && s.requests == []
  {
    assert Opening({w}).wallets == map[w := Wallet(0, 0, 0)];
  }

  lemma CreditFreezes(s: State, w: Uuid, n: int)
    requires n > 0 && s.wallets == map[w := Wallet(0, n, 0)] && s.requests == []
    ensures CreateWithdrawStep(s, CreateWithdraw(w, n, 0)).0 ==
      s.(wallets := map[w := Wallet(0, n, n)], requests := [WithdrawRequest(w, n, 0, WithdrawPending)])
  {
    assert s.wallets[w := Wallet(0, n, n)] == map[w := Wallet(0, n, n)];
  }

  lemma CompletionTakesTon(s: State, w: Uuid, n: int)
    requires s.wallets == map[w := Wallet(0, n, n)] && s.requests == [WithdrawRequest(w, n, 0, WithdrawPending)]
    ensures FinishStep(s, 0, true).0.wallets == map[w := Wallet(-n, n, 0)]
  {}

  lemma ThreeOps(s: State, a: Op, b: Op, c: Op)
    ensures var ops := [a, b, c];
      && Run(s, ops[..0]) == s && Run(s, ops[..1]) == Step(s, a).0
      && Run(s, ops[..2]) == Step(Step(s, a).0, b).0 && Run(s, ops) == Step(Step(Step(s, a).0, b).0, c).0
  {
    var ops := [a, b, c];
    assert ops[..0] == [] && ops[..1] == [a] && ops[..2] == [a, b];
    assert [a][..0] == [] && [a, b][..1] == [a];
  }

  /** Without that care it fails: admin credit alone backs a withdrawal, and
      completing it drives TON below zero while the credit is still there. */
  lemma CreditBacksWithdrawal(w: Uuid, n: int, id: string)
    requires n > 0
    ensures var ops := [AddCredit(w, n, id), CreateWithdraw(w, n, 0), CompleteWithdraw(0)];
      && ProperRun(Opening({w}), ops)
      && Run(Opening({w}), ops).wallets == map[w := Wallet(-n, n, 0)]
  {
    var s := Opening({w});
    var a, b, c := AddCredit(w, n, id), CreateWithdraw(w, n, 0), CompleteWithdraw(0);
    ThreeOps(s, a, b, c);
    CreditGiven(w, n, id);
    var s1 := AddCreditStep(s, a).0;
    CreditFreezes(s1, w, n);
    CompletionTakesTon(CreateWithdrawStep(s1, b).0, w, n);
  }

  // -------------------------------------------------------------- conservation

  function Tons(ws: map<Uuid, Wallet>): map<string, int> {
    map w | w in ws :: ws[w].ton
  }

  function Credits(ws: map<Uuid, Wallet>): map<string, int> {
    map w | w in ws :: ws[w].credit
  }

  /** A transfer moves TON as TON and credit as credit: both totals stay, also when
      sender and receiver are one wallet, and then nothing changes at all. */
  lemma TransferConserves(s: State, op: Op)
    requires op.Transfer?
    ensures var ws := TransferStep(s, op).0.wallets;
      && Sum(Tons(ws)) == Sum(Tons(s.wallets))
      && Sum(Credits(ws)) == Sum(Credits(s.wallets))
      && (op.source == op.target ==> ws == s.wallets)
  {
    if TransferStep(s, op).1.Moved? {
      MoveConserves(s.wallets, op.source, op.target, op.amount);
    }
  }

  lemma MoveConserves(ws: map<Uuid, Wallet>, source: Uuid, target: Uuid, n: int)
    requires source in ws && target in ws
    ensures var ws' := Move(ws, source, target, n);
      && Sum(Tons(ws')) == Sum(Tons(ws)) && Sum(Credits(ws')) == Sum(Credits(ws))
      && (source == target ==> ws' == ws)
  {
    var (creditUsed, tonUsed) := Split(ws[source], n);
    var lighter := Take(ws[source], creditUsed, tonUsed);
    var taken := ws[source := lighter];
    var heavier := Give(taken[target], creditUsed, tonUsed);
    assert Move(ws, source, target, n) == taken[target := heavier];
    assert heavier.ton - taken[target].ton == ws[source].ton - lighter.ton;
    assert heavier.credit - taken[target].credit == ws[source].credit - lighter.credit;
    SwapConserves(ws, source, lighter, target, heavier);
  }

  lemma SwapConserves(ws: map<Uuid, Wallet>, a: Uuid, x: Wallet, b: Uuid, y: Wallet)
    requires a in ws && b in ws
    requires y.ton - ws[a := x][b].ton == ws[a].ton - x.ton
    requires y.credit - ws[a := x][b].credit == ws[a].credit - x.credit
    ensures Sum(Tons(ws[a := x][b := y])) == Sum(Tons(ws))
    ensures Sum(Credits(ws[a := x][b := y])) == Sum(Credits(ws))
  {
    ReplaceMovesSums(ws, a, x);
    ReplaceMovesSums(ws[a := x], b, y);
  }

  lemma ReplaceMovesSums(ws: map<Uuid, Wallet>, k: Uuid, x: Wallet)
    requires k in ws
    ensures Sum(Tons(ws[k := x])) == Sum(Tons(ws)) - ws[k].ton + x.ton
    ensures Sum(Credits(ws[k := x])) == Sum(Credits(ws)) - ws[k].credit + x.credit
  {
    SumUpdate(Tons(ws), k, x.ton);
    SumUpdate(Credits(ws), k, x.credit);
    assert Tons(ws[k := x]) == Tons(ws)[k := x.ton];
    assert Credits(ws[k := x]) == Credits(ws)[k := x.credit];
  }
}
