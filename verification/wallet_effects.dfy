/** What an accepted call does to which kind of money, and which calls are accepted. */
module WalletEffects {
  import opened Text
  import opened Wallets

  /** All other wallets are as they were. */
  predicate OnlyWallet(s: State, t: State, w: Uuid) {
    t.wallets.Keys == s.wallets.Keys && forall v | v in s.wallets && v != w :: t.wallets[v] == s.wallets[v]
  }

  function Least(a: int, b: int): int {
    if a < b then a else b
  }

  /** From x to y a wallet has paid n: out of its credit as far as that goes, and the rest
      in TON. */
  predicate PaysCreditFirst(x: Wallet, y: Wallet, n: int) {
    && x.credit - y.credit == Least(x.credit, n) && x.ton - y.ton == n - Least(x.credit, n)
    && (y.ton < x.ton ==> y.credit == 0) && y.frozen == x.frozen
  }

  predicate HashIsOn(rows: seq<Transaction>, txHash: string) {
    exists i | 0 <= i < |rows| :: rows[i].txHash == txHash
  }

  predicate PaidBefore(rows: seq<Transaction>, w: Uuid, serviceId: string, ref: string) {
    exists i | 0 <= i < |rows| ::
      rows[i].walletId == w && rows[i].serviceId == serviceId && rows[i].ref == ref && rows[i].kind == TxPayment
  }

  /** A payment is taken exactly when it is for something, its wallet has that much
      unfrozen money of both kinds together, and neither its key nor its hash is on a row. */
  lemma DeductIsTakenIff(s: State, op: Op)
    requires op.Deduct?
    ensures |Step(s, op).0.rows| == |s.rows| + 1 <==>
      && op.amount > 0 && op.wallet in s.wallets
      && s.wallets[op.wallet].ton + s.wallets[op.wallet].credit - s.wallets[op.wallet].frozen >= op.amount
      && (op.ref != "" ==> !PaidBefore(s.rows, op.wallet, op.serviceId, op.ref))
      && !HashIsOn(s.rows, "int-" + op.internalId)
    ensures |Step(s, op).0.rows| != |s.rows| + 1 ==> Step(s, op).0 == s
  {
    var i := FindPayment(s.rows, op.wallet, op.serviceId, op.ref);
    assert PaidBefore(s.rows, op.wallet, op.serviceId, op.ref) <==> i < |s.rows| by {
      if i < |s.rows| {
        assert IsPayment(s.rows[i], op.wallet, op.serviceId, op.ref);
      }
    }
    HashTakenMeans(s.rows, "int-" + op.internalId);
  }

  lemma HashTakenMeans(rows: seq<Transaction>, txHash: string)
    requires txHash != ""
    ensures HashTaken(rows, txHash) <==> HashIsOn(rows, txHash)
  {
    var i := FindHash(rows, txHash);
    if i < |rows| {
      assert rows[i].txHash == txHash;
    }
  }

  /** An accepted payment takes credit first, and TON only once the credit is gone. */
  lemma DeductPaysCreditFirst(s: State, op: Op)
    requires op.Deduct? && |Step(s, op).0.rows| == |s.rows| + 1 && s.wallets[op.wallet].credit >= 0
    ensures var t := Step(s, op).0;
      && OnlyWallet(s, t, op.wallet) && PaysCreditFirst(s.wallets[op.wallet], t.wallets[op.wallet], op.amount)
      && t.requests == s.requests
  {}

  /** The text of a transfer's two rows. */
  predicate TransferHashIsOn(rows: seq<Transaction>, id: string) {
    HashIsOn(rows, "int-" + id + "-from") || HashIsOn(rows, "int-" + id + "-to")
  }

  lemma TransferIsTakenIff(s: State, op: Op)
    requires op.Transfer?
    ensures |Step(s, op).0.rows| == |s.rows| + 2 <==>
      && op.amount > 0 && op.source in s.wallets && op.target in s.wallets
      && s.wallets[op.source].ton + s.wallets[op.source].credit - s.wallets[op.source].frozen >= op.amount
      && !TransferHashIsOn(s.rows, op.internalId)
    ensures |Step(s, op).0.rows| != |s.rows| + 2 ==> Step(s, op).0 == s
  {
    HashTakenMeans(s.rows, "int-" + op.internalId + "-from");
    HashTakenMeans(s.rows, "int-" + op.internalId + "-to");
  }

  /** Between two wallets the sender pays credit first, and the receiver gets credit as
      credit and TON as TON. */
  lemma TransferMovesKinds(s: State, op: Op)
    requires op.Transfer? && |Step(s, op).0.rows| == |s.rows| + 2 && op.source != op.target
    requires s.wallets[op.source].credit >= 0
    ensures var t := Step(s, op).0;
      var x, y, z, v := s.wallets[op.source], t.wallets[op.source], s.wallets[op.target], t.wallets[op.target];
      && t.wallets.Keys == s.wallets.Keys && PaysCreditFirst(x, y, op.amount)
      && v.credit - z.credit == x.credit - y.credit && v.ton - z.ton == x.ton - y.ton && v.frozen == z.frozen
      && forall w | w in s.wallets && w != op.source && w != op.target :: t.wallets[w] == s.wallets[w]
  {}

  /** A deposit is TON, and an admin's gift is credit. */
  lemma ReceiptsByKind(s: State, op: Op)
    requires (op.Deposit? || op.AddCredit?) && |Step(s, op).0.rows| == |s.rows| + 1 && op.wallet in s.wallets
    ensures var t := Step(s, op).0; var x, y := s.wallets[op.wallet], t.wallets[op.wallet];
      && OnlyWallet(s, t, op.wallet)
      && y == if op.Deposit? then x.(ton := x.ton + op.amount) else x.(credit := x.credit + op.amount)
  {}

  // ----------------------------------------------------------------------- withdrawals

  /** A withdrawal is accepted exactly when unfrozen TON and credit together cover it, and
      freezes that much. */
  lemma CreateFreezes(s: State, op: Op)
    requires op.CreateWithdraw?
    ensures var t := Step(s, op).0;
      && (|t.requests| == |s.requests| + 1 <==>
            op.wallet in s.wallets &&
            var x := s.wallets[op.wallet]; x.ton + x.credit - x.frozen >= op.amount + op.fee)
      && (|t.requests| != |s.requests| + 1 ==> t == s)
      && (|t.requests| == |s.requests| + 1 ==>
            var x, y := s.wallets[op.wallet], t.wallets[op.wallet];
            OnlyWallet(s, t, op.wallet) && y == x.(frozen := x.frozen + op.amount + op.fee))
  {}

  /** Rejecting the request that was created gives back exactly what was frozen; completing
      it takes that much TON and no credit. */
  lemma FinishAfterCreate(s: State, op: Op)
    requires op.CreateWithdraw? && |Step(s, op).0.requests| == |s.requests| + 1
    ensures var t := Step(s, op).0; var id, x := |s.requests|, s.wallets[op.wallet];
      && Step(t, RejectWithdraw(id)).0.wallets == s.wallets
      && Step(t, CompleteWithdraw(id)).0.wallets ==
         s.wallets[op.wallet := x.(ton := x.ton - (op.amount + op.fee))]
  {
    var t := Step(s, op).0;
    var id, x := |s.requests|, s.wallets[op.wallet];
    assert t.requests[id] == WithdrawRequest(op.wallet, op.amount, op.fee, WithdrawPending);
    assert s.wallets[op.wallet := x] == s.wallets;
  }
}
