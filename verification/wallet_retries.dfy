/** Retried calls: the (wallet, service, ref) of a payment and the chain hash of a
    deposit are idempotency keys over whole call histories. */
module WalletRetries {
  import opened Text
  import opened Wallets

  predicate SameKey(a: Op, b: Op) {
    || (a.Deposit? && b.Deposit? && a.txHash == b.txHash)
    || (a.Deduct? && b.Deduct? && a.ref != "" && a.wallet == b.wallet
        && a.serviceId == b.serviceId && a.ref == b.ref)
  }

  function StateAt(s: State, ops: seq<Op>, i: nat): State
    requires i <= |ops|
  {
    Run(s, ops[..i])
  }

  function Answer(s: State, ops: seq<Op>, i: nat): Outcome
    requires i < |ops|
  {
    Step(StateAt(s, ops, i), ops[i]).1
  }

  /** Call i repeats the key of an earlier call that was answered with a row. */
  predicate Repeats(s: State, ops: seq<Op>, i: nat)
    requires i < |ops|
  {
    exists j: nat :: j < i && SameKey(ops[j], ops[i]) && Answer(s, ops, j).Recorded?
  }

  /** The call sequence without the calls at the dropped positions. */
  function Without(ops: seq<Op>, dropped: set<nat>): seq<Op> {
    if ops == [] then []
    else
      var n: nat := |ops| - 1;
      Without(ops[..n], dropped) + if n in dropped then [] else [ops[n]]
  }

  // -------------------------------------------------- rows are never taken away

  lemma StepAppends(s: State, op: Op)
    ensures s.rows <= Step(s, op).0.rows
  {}

  lemma {:induction false} RowsOnlyGrow(s: State, ops: seq<Op>, j: nat, i: nat)
    requires j <= i <= |ops|
    ensures StateAt(s, ops, j).rows <= StateAt(s, ops, i).rows
    decreases i
  {
    if j < i {
      RowsOnlyGrow(s, ops, j, i - 1);
      assert ops[..i][..i - 1] == ops[..i - 1];
      StepAppends(StateAt(s, ops, i - 1), ops[i - 1]);
    }
  }

  /** The row a successful keyed call is answered with, in its after-state. */
  lemma AnswerIsFirstMatch(s: State, op: Op)
    requires Step(s, op).1.Recorded? && SameKey(op, op)
    ensures var (s', out) := Step(s, op);
      && out.row < |s'.rows|
      && out.row == if op.Deposit? then FindHash(s'.rows, op.txHash)
                    else FindPayment(s'.rows, op.wallet, op.serviceId, op.ref)
  {}

  lemma FirstMatchStays(a: seq<Transaction>, b: seq<Transaction>, op: Op)
    requires a <= b && SameKey(op, op)
    ensures op.Deposit? && FindHash(a, op.txHash) < |a| ==> FindHash(b, op.txHash) == FindHash(a, op.txHash)
    ensures op.Deduct? && FindPayment(a, op.wallet, op.serviceId, op.ref) < |a| ==>
      FindPayment(b, op.wallet, op.serviceId, op.ref) == FindPayment(a, op.wallet, op.serviceId, op.ref)
  {}

  /** A repeated call changes nothing and, if its amount is one the store takes,
      is answered with the very row of the call it repeats. */
  lemma {:induction false} RepeatIsNoOp(s: State, ops: seq<Op>, j: nat, i: nat)
    requires j < i < |ops| && SameKey(ops[j], ops[i]) && Answer(s, ops, j).Recorded?
    ensures StateAt(s, ops, i + 1) == StateAt(s, ops, i)
    ensures ops[i].Deposit? || ops[i].amount > 0 ==> Answer(s, ops, i) == Answer(s, ops, j)
  {
    var before, after, now := StateAt(s, ops, j), StateAt(s, ops, j + 1), StateAt(s, ops, i);
    OneOn(s, ops, j);
    OneOn(s, ops, i);
    AnswerIsFirstMatch(before, ops[j]);
    RowsOnlyGrow(s, ops, j + 1, i);
    FirstMatchStays(after.rows, now.rows, ops[j]);
    KnownKeyIsNoOp(now, ops[i], Answer(s, ops, j).row);
  }

  lemma OneOn(s: State, ops: seq<Op>, i: nat)
    requires i < |ops|
    ensures StateAt(s, ops, i + 1) == Step(StateAt(s, ops, i), ops[i]).0
  {
    assert ops[..i + 1][..i] == ops[..i];
  }

  /** A call whose key is on a row. */
  lemma KnownKeyIsNoOp(s: State, op: Op, row: nat)
    requires SameKey(op, op) && row < |s.rows|
    requires row == if op.Deposit? then FindHash(s.rows, op.txHash)
                    else FindPayment(s.rows, op.wallet, op.serviceId, op.ref)
    ensures Step(s, op).0 == s
    ensures op.Deposit? || op.amount > 0 ==> Step(s, op).1 == Recorded(row)
  {}

  lemma {:induction false} RepeatsBefore(s: State, ops: seq<Op>, n: nat, i: nat)
    requires i < n <= |ops| && Repeats(s, ops, i)
    ensures Repeats(s, ops[..n], i)
  {
    var init := ops[..n];
    var j: nat :| j < i && SameKey(ops[j], ops[i]) && Answer(s, ops, j).Recorded?;
    assert init[..j] == ops[..j];
    assert Answer(s, init, j).Recorded?;
  }

  /** The last call may go if it repeats one. */
  lemma {:induction false} LastRepeatIsNoOp(s: State, ops: seq<Op>, n: nat)
    requires |ops| == n + 1 && Repeats(s, ops, n)
    ensures Run(s, ops) == Run(s, ops[..n])
  {
    var j: nat :| j < n && SameKey(ops[j], ops[n]) && Answer(s, ops, j).Recorded?;
    RepeatIsNoOp(s, ops, j, n);
    assert ops[..n + 1] == ops;
  }

  /** Leaving out any of the repeated calls leaves every balance and row as it was. */
  lemma {:induction false} RetryEquivalence(s: State, ops: seq<Op>, dropped: set<nat>)
    requires forall i | i in dropped && i < |ops| :: Repeats(s, ops, i)
    ensures Run(s, Without(ops, dropped)) == Run(s, ops)
  {
    if ops != [] {
      var n: nat := |ops| - 1;
      var init := ops[..n];
      forall i | i in dropped && i < n ensures Repeats(s, init, i) {
        RepeatsBefore(s, ops, n, i);
      }
      RetryEquivalence(s, init, dropped);
      var rest := Without(init, dropped);
      if n in dropped {
        LastRepeatIsNoOp(s, ops, n);
        assert Without(ops, dropped) == rest;
      } else {
        assert (rest + [ops[n]])[..|rest|] == rest;
      }
    }
  }

  // ------------------------------------------------------------ one row per key

  predicate KeyedAlike(a: Transaction, b: Transaction) {
    || a.txHash == b.txHash
    || (a.kind == b.kind == TxPayment && a.ref == b.ref != ""
        && a.walletId == b.walletId && a.serviceId == b.serviceId)
  }

  predicate OneRowPerKey(rows: seq<Transaction>) {
    forall i, j | 0 <= i < j < |rows| :: !KeyedAlike(rows[i], rows[j])
  }

  /** A row that matches no stored hash and no stored payment key may be added. */
  lemma AddRow(rows: seq<Transaction>, t: Transaction)
    requires OneRowPerKey(rows) && FindHash(rows, t.txHash) == |rows|
    requires t.kind == TxPayment && t.ref != "" ==>
      FindPayment(rows, t.walletId, t.serviceId, t.ref) == |rows|
    ensures OneRowPerKey(rows + [t])
  {}

  lemma StepKeepsOneRow(s: State, op: Op)
    requires OneRowPerKey(s.rows)
    ensures OneRowPerKey(Step(s, op).0.rows)
  {}

  /** In every reachable state no two rows share a chain hash and no two payments
      share a non-empty (wallet, service, ref). */
  lemma {:induction false} RunKeepsOneRowPerKey(wallets: set<Uuid>, ops: seq<Op>)
    ensures OneRowPerKey(Run(Opening(wallets), ops).rows)
  {
    if ops != [] {
      RunKeepsOneRowPerKey(wallets, ops[..|ops| - 1]);
      StepKeepsOneRow(Run(Opening(wallets), ops[..|ops| - 1]), ops[|ops| - 1]);
    }
  }
}
