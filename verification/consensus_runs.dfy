/** All interleavings of verification calls: workers run whenever they like, also
    after the engine has given up on them, and the engine takes votes or timeouts
    in any order. */
module ConsensusRuns {
  import opened Text
  import opened Consensus

  datatype State = State(records: seq<Records>, calls: seq<Call>)

  datatype Event =
    | Start(tx: Tx)
    | Work(call: nat, worker: nat, age: int, cryptoOk: bool)
    | Collect(call: nat, worker: nat)
    | TimeOut(call: nat)

  predicate Finished(c: Call, workers: nat) {
    |c.collected| + c.timeouts >= workers
  }

  /** What can happen next; an event that cannot happen changes nothing. The engine
      never starts a call with an empty ID. */
  function Step(kinds: seq<WorkerKind>, s: State, e: Event): State
    requires |s.records| == |kinds|
  {
    match e
    case Start(tx) =>
      if tx.id == "" then s else s.(calls := s.calls + [Call(tx, map[], {}, 0)])
    case Work(c, w, age, cryptoOk) =>
      if c >= |s.calls| || w >= |kinds| || w in s.calls[c].votes then s
      else
        var (records, vote) := WorkerVerify(kinds[w], s.records[w], s.calls[c].tx, age, cryptoOk);
        State(s.records[w := records],
              s.calls[c := s.calls[c].(votes := s.calls[c].votes[w := vote.approved])])
    case Collect(c, w) =>
      if c >= |s.calls| || Finished(s.calls[c], |kinds|) then s
      else if w !in s.calls[c].votes || w in s.calls[c].collected then s
      else s.(calls := s.calls[c := s.calls[c].(collected := s.calls[c].collected + {w})])
    case TimeOut(c) =>
      if c >= |s.calls| || Finished(s.calls[c], |kinds|) then s
      else s.(calls := s.calls[c := s.calls[c].(timeouts := s.calls[c].timeouts + 1)])
  }

  function Empty(workers: nat): seq<Records> {
    if workers == 0 then [] else Empty(workers - 1) + [map[]]
  }

  function Run(kinds: seq<WorkerKind>, events: seq<Event>): (s: State)
    ensures |s.records| == |kinds|
  {
    if events == [] then
      EmptySize(|kinds|);
      State(Empty(|kinds|), [])
    else
      Step(kinds, Run(kinds, events[..|events| - 1]), events[|events| - 1])
  }

  lemma EmptySize(n: nat)
    ensures |Empty(n)| == n
  {}

  // ----------------------------------------------------------------- invariant

  predicate ApprovedBy(c: Call, w: nat) {
    w in c.votes && c.votes[w]
  }

  /** What a worker knows of each vote it cast: the ID is on record, and an approval
      met no objection. */
  ghost predicate VoteOk(kinds: seq<WorkerKind>, s: State, c: nat, w: nat)
    requires |s.records| == |kinds| && c < |s.calls|
  {
    w in s.calls[c].votes ==>
      && w < |kinds|
      && s.calls[c].tx.id in s.records[w]
      && (s.calls[c].votes[w] ==>
           exists age, cryptoOk :: Objection(kinds[w], s.calls[c].tx, age, cryptoOk).None?)
  }

  /** No worker approves one ID in two calls. */
  predicate NoSecondApproval(s: State, c: nat, d: nat, w: nat)
    requires c < |s.calls| && d < |s.calls|
  {
    s.calls[c].tx.id == s.calls[d].tx.id && c != d ==> !(ApprovedBy(s.calls[c], w) && ApprovedBy(s.calls[d], w))
  }

  ghost predicate Inv(kinds: seq<WorkerKind>, s: State) {
    && |s.records| == |kinds|
    && (forall c: nat | c < |s.calls| :: s.calls[c].tx.id != "" && s.calls[c].collected <= s.calls[c].votes.Keys)
    && (forall c: nat, w: nat | c < |s.calls| :: VoteOk(kinds, s, c, w))
    && (forall c: nat, d: nat, w: nat | c < |s.calls| && d < |s.calls| :: NoSecondApproval(s, c, d, w))
  }

  lemma WorkKeepsInv(kinds: seq<WorkerKind>, s: State, e: Event)
    requires Inv(kinds, s) && e.Work?
    ensures Inv(kinds, Step(kinds, s, e))
  {
    var s' := Step(kinds, s, e);
    if s' != s {
      var Work(c0, w0, age, cryptoOk) := e;
      var (records, vote) := WorkerVerify(kinds[w0], s.records[w0], s.calls[c0].tx, age, cryptoOk);
      forall c: nat, w: nat | c < |s'.calls| ensures VoteOk(kinds, s', c, w) {
        assert VoteOk(kinds, s, c, w);
        if c == c0 && w == w0 && vote.approved {
          assert Objection(kinds[w0], s.calls[c0].tx, age, cryptoOk).None?;
        }
      }
      forall c: nat, d: nat, w: nat | c < |s'.calls| && d < |s'.calls|
        ensures NoSecondApproval(s', c, d, w)
      {
        assert NoSecondApproval(s, c, d, w) && VoteOk(kinds, s, c, w) && VoteOk(kinds, s, d, w);
      }
    }
  }

  lemma StepKeepsInv(kinds: seq<WorkerKind>, s: State, e: Event)
    requires Inv(kinds, s)
    ensures Inv(kinds, Step(kinds, s, e))
  {
    if e.Work? {
      WorkKeepsInv(kinds, s, e);
    } else {
      var s' := Step(kinds, s, e);
      forall c: nat, w: nat | c < |s'.calls| ensures VoteOk(kinds, s', c, w) {
        assert c < |s.calls| ==> VoteOk(kinds, s, c, w);
      }
      forall c: nat, d: nat, w: nat | c < |s'.calls| && d < |s'.calls|
        ensures NoSecondApproval(s', c, d, w)
      {
        assert c < |s.calls| && d < |s.calls| ==> NoSecondApproval(s, c, d, w);
      }
    }
  }

  lemma {:induction false} RunKeepsInv(kinds: seq<WorkerKind>, events: seq<Event>)
    ensures Inv(kinds, Run(kinds, events))
  {
    if events != [] {
      RunKeepsInv(kinds, events[..|events| - 1]);
      StepKeepsInv(kinds, Run(kinds, events[..|events| - 1]), events[|events| - 1]);
    }
  }

  // --------------------------------------------------------------- replay bound

  /** The engine has answered this call with approval. */
  predicate Approved(c: Call, threshold: int, workers: nat) {
    Finished(c, workers) && Verdict(c, threshold, workers).approved
  }

  function Counts(c: Call, id: string, threshold: int, workers: nat): nat {
    if c.tx.id == id && Approved(c, threshold, workers) then 1 else 0
  }

  /** How many of the calls with this ID were approved. */
  function Approvals(calls: seq<Call>, id: string, threshold: int, workers: nat): nat {
    if calls == [] then 0
    else
      var last := calls[|calls| - 1];
      Approvals(calls[..|calls| - 1], id, threshold, workers) + Counts(last, id, threshold, workers)
  }

  /** The workers whose approval of this ID was collected by some call. */
  function Spent(calls: seq<Call>, id: string): set<nat> {
    if calls == [] then {}
    else
      var last := calls[|calls| - 1];
      Spent(calls[..|calls| - 1], id) + if last.tx.id == id then YesSet(last) else {}
  }

  ghost predicate ApprovedEarlier(s: State, n: nat, id: string, w: nat)
    requires n <= |s.calls|
  {
    exists c: nat :: c < n && s.calls[c].tx.id == id && ApprovedBy(s.calls[c], w)
  }

  lemma {:induction false} SpentMeansApproved(kinds: seq<WorkerKind>, s: State, n: nat, id: string, w: nat)
    requires Inv(kinds, s) && n <= |s.calls| && w in Spent(s.calls[..n], id)
    ensures w < |kinds| && ApprovedEarlier(s, n, id, w)
    decreases n
  {
    var init, last := s.calls[..n - 1], s.calls[n - 1];
    assert s.calls[..n][..n - 1] == init;
    if w in Spent(init, id) {
      SpentMeansApproved(kinds, s, n - 1, id, w);
    } else {
      assert ApprovedBy(last, w) && VoteOk(kinds, s, n - 1, w);
    }
  }

  lemma NextIsDisjoint(kinds: seq<WorkerKind>, s: State, n: nat, id: string)
    requires Inv(kinds, s) && n < |s.calls| && s.calls[n].tx.id == id
    ensures Spent(s.calls[..n], id) !! YesSet(s.calls[n])
  {
    forall w | w in Spent(s.calls[..n], id) ensures w !in YesSet(s.calls[n]) {
      SpentMeansApproved(kinds, s, n, id, w);
      var c: nat :| c < n && s.calls[c].tx.id == id && ApprovedBy(s.calls[c], w);
      assert NoSecondApproval(s, c, n, w);
    }
  }

  /** The threshold, once for each of the calls with this ID that were approved. */
  function Cost(calls: seq<Call>, id: string, threshold: nat, workers: nat): nat {
    if calls == [] then 0
    else
      var last := calls[|calls| - 1];
      Cost(calls[..|calls| - 1], id, threshold, workers)
      + if last.tx.id == id && Approved(last, threshold, workers) then threshold else 0
  }

  lemma OneMoreThreshold(a: nat, threshold: nat)
    ensures (a + 1) * threshold == a * threshold + threshold
  {}

  lemma {:induction false} CostIsProduct(calls: seq<Call>, id: string, threshold: nat, workers: nat)
    ensures Cost(calls, id, threshold, workers) == Approvals(calls, id, threshold, workers) * threshold
  {
    if calls != [] {
      var init := calls[..|calls| - 1];
      CostIsProduct(init, id, threshold, workers);
      OneMoreThreshold(Approvals(init, id, threshold, workers), threshold);
    }
  }

  lemma ApprovalTakesThreshold(c: Call, threshold: nat, workers: nat)
    requires Approved(c, threshold, workers)
    ensures |YesSet(c)| >= threshold
  {}

  /** Each approval uses up `threshold` workers no other call with the ID can use. */
  lemma OneMoreApproval(kinds: seq<WorkerKind>, s: State, n: nat, id: string, threshold: nat)
    requires Inv(kinds, s) && n < |s.calls| && s.calls[n].tx.id == id
    requires Cost(s.calls[..n], id, threshold, |kinds|) <= |Spent(s.calls[..n], id)|
    ensures Cost(s.calls[..n + 1], id, threshold, |kinds|) <= |Spent(s.calls[..n + 1], id)|
  {
    assert s.calls[..n + 1][..n] == s.calls[..n];
    NextIsDisjoint(kinds, s, n, id);
    UnionSize(Spent(s.calls[..n], id), YesSet(s.calls[n]));
    if Approved(s.calls[n], threshold, |kinds|) {
      ApprovalTakesThreshold(s.calls[n], threshold, |kinds|);
    }
  }

  lemma {:induction false} ApprovalsSpendWorkers(
    kinds: seq<WorkerKind>, s: State, n: nat, id: string, threshold: nat)
    requires Inv(kinds, s) && n <= |s.calls|
    ensures Cost(s.calls[..n], id, threshold, |kinds|) <= |Spent(s.calls[..n], id)|
    decreases n
  {
    if n > 0 {
      assert s.calls[..n][..n - 1] == s.calls[..n - 1];
      ApprovalsSpendWorkers(kinds, s, n - 1, id, threshold);
      if s.calls[n - 1].tx.id == id {
        OneMoreApproval(kinds, s, n - 1, id, threshold);
      }
    }
  }

  lemma UnionSize(a: set<nat>, b: set<nat>)
    requires a !! b
    ensures |a + b| == |a| + |b|
  {}

  lemma {:induction false} BelowSize(a: set<nat>, n: nat)
    requires forall w | w in a :: w < n
    ensures |a| <= n
  {
    if n == 0 {
      assert a == {};
    } else {
      BelowSize(a - {n - 1}, n - 1);
    }
  }

  /** Over every run, approvals of one transaction ID times the threshold never
      exceed the number of workers, whatever the timeouts drop. */
  lemma {:induction false} ReplayBound(kinds: seq<WorkerKind>, events: seq<Event>, id: string, threshold: nat)
    ensures Approvals(Run(kinds, events).calls, id, threshold, |kinds|) * threshold <= |kinds|
    ensures threshold > 0 ==>
      Approvals(Run(kinds, events).calls, id, threshold, |kinds|) <= |kinds| / threshold
  {
    var s := Run(kinds, events);
    RunKeepsInv(kinds, events);
    ApprovalsSpendWorkers(kinds, s, |s.calls|, id, threshold);
    CostIsProduct(s.calls, id, threshold, |kinds|);
    assert s.calls[..|s.calls|] == s.calls;
    forall w | w in Spent(s.calls, id) ensures w < |kinds| {
      SpentMeansApproved(kinds, s, |s.calls|, id, w);
    }
    BelowSize(Spent(s.calls, id), |kinds|);
    if threshold > 0 {
      QuotientBound(Approvals(s.calls, id, threshold, |kinds|), threshold, |kinds|);
    }
  }

  lemma {:induction false} QuotientBound(a: nat, b: nat, n: nat)
    requires b > 0 && a * b <= n
    ensures a <= n / b
  {
    assert n == b * (n / b) + n % b;
    assert b * a < b * (n / b + 1);
  }

  /** With the four shipped workers and threshold three, one ID is approved at most once. */
  lemma {:induction false} ShippedApprovesOnce(events: seq<Event>, id: string)
    ensures Approvals(Run(SHIPPED, events).calls, id, DEFAULT_THRESHOLD, 4) <= 1
  {
    ReplayBound(SHIPPED, events, id, DEFAULT_THRESHOLD);
  }

  // --------------------------------------------------------------- vote counting

  /** A finished call counts every worker once: as an approval or as a "no". */
  lemma {:induction false} CountsAddUp(kinds: seq<WorkerKind>, events: seq<Event>, c: nat, threshold: int)
    requires c < |Run(kinds, events).calls| && Finished(Run(kinds, events).calls[c], |kinds|)
    ensures var r := Verdict(Run(kinds, events).calls[c], threshold, |kinds|);
      r.yesCount + r.noCount == |kinds|
  {
    RunNeverOverfills(kinds, events, c);
    var call := Run(kinds, events).calls[c];
    UnionSize(YesSet(call), call.collected - YesSet(call));
    assert YesSet(call) + (call.collected - YesSet(call)) == call.collected;
  }

  lemma {:induction false} RunNeverOverfills(kinds: seq<WorkerKind>, events: seq<Event>, c: nat)
    requires c < |Run(kinds, events).calls|
    ensures var call := Run(kinds, events).calls[c]; |call.collected| + call.timeouts <= |kinds|
  {
    if events != [] {
      var before := Run(kinds, events[..|events| - 1]);
      if c < |before.calls| {
        RunNeverOverfills(kinds, events[..|events| - 1], c);
      }
    }
  }

  // --------------------------------------------------------------- amount bounds

  /** An approving vote in a run means that worker's checks passed. */
  lemma ApprovalMeansChecked(kinds: seq<WorkerKind>, events: seq<Event>, c: nat, w: nat)
    requires c < |Run(kinds, events).calls| && w in YesSet(Run(kinds, events).calls[c])
    ensures w < |kinds|
    ensures var tx := Run(kinds, events).calls[c].tx;
      match kinds[w]
      case Hmac => 0 < tx.amountNano <= MAX_HMAC_NANO
      case Ed25519 => 0 < tx.amountNano && |tx.fromWallet| >= 10
      case Aes => tx.toService != ""
      case Merkle => 0 < tx.amountNano <= MAX_SAFE_NANO
  {
    RunKeepsInv(kinds, events);
    assert VoteOk(kinds, Run(kinds, events), c, w);
  }

  lemma YesAmongShipped(events: seq<Event>, c: nat)
    requires c < |Run(SHIPPED, events).calls|
    ensures YesSet(Run(SHIPPED, events).calls[c]) <= {0, 1, 2, 3}
  {
    RunKeepsInv(SHIPPED, events);
    forall w | w in YesSet(Run(SHIPPED, events).calls[c]) ensures w in {0, 1, 2, 3} {
      assert VoteOk(SHIPPED, Run(SHIPPED, events), c, w);
    }
  }

  lemma SubsetSize(a: set<nat>, b: set<nat>)
    requires a <= b
    ensures |a| <= |b|
    ensures |a| == |b| ==> a == b
  {
    UnionSize(a, b - a);
    assert a + (b - a) == b;
  }

  /** Approval by the shipped quorum bounds the amount: the HMAC or the Merkle worker
      is among any three. */
  lemma {:induction false} ApprovedAmountIsBounded(events: seq<Event>, c: nat)
    requires c < |Run(SHIPPED, events).calls|
    requires Approved(Run(SHIPPED, events).calls[c], DEFAULT_THRESHOLD, 4)
    ensures 0 < Run(SHIPPED, events).calls[c].tx.amountNano <= MAX_SAFE_NANO
  {
    var call := Run(SHIPPED, events).calls[c];
    YesAmongShipped(events, c);
    if 0 in YesSet(call) {
      ApprovalMeansChecked(SHIPPED, events, c, 0);
    } else if 3 in YesSet(call) {
      ApprovalMeansChecked(SHIPPED, events, c, 3);
    } else {
      SubsetSize(YesSet(call), {1, 2});
      assert false;
    }
  }

  /** A withdrawal that passes the guard was approved by all four workers. */
  lemma {:induction false} PassedWithdrawIsUnanimous(
    events: seq<Event>, c: nat, id: string, telegramId: int, amountNano: int, toAddress: string)
    requires c < |Run(SHIPPED, events).calls| && Finished(Run(SHIPPED, events).calls[c], 4)
    requires Run(SHIPPED, events).calls[c].tx == WithdrawTx(id, telegramId, amountNano, toAddress)
    requires CheckWithdraw(Verdict(Run(SHIPPED, events).calls[c], DEFAULT_THRESHOLD, 4)).None?
    ensures YesSet(Run(SHIPPED, events).calls[c]) == {0, 1, 2, 3}
    ensures 0 < amountNano <= MAX_HMAC_NANO && toAddress != ""
  {
    var call := Run(SHIPPED, events).calls[c];
    CountsAddUp(SHIPPED, events, c, DEFAULT_THRESHOLD);
    YesAmongShipped(events, c);
    assert |{0, 1, 2, 3}| == 4;
    SubsetSize(YesSet(call), {0, 1, 2, 3});
    ApprovalMeansChecked(SHIPPED, events, c, 0);
    ApprovalMeansChecked(SHIPPED, events, c, 2);
  }

  lemma {:induction false} ShortNumber(n: nat, k: nat, limit: nat)
    requires k > 0 && limit == PowerOfTen(k) && n < limit
    ensures |Digits(n)| <= k
    decreases k
  {
    if n >= 10 {
      ShortNumber(n / 10, k - 1, limit / 10);
    }
  }

  function PowerOfTen(k: nat): nat {
    if k == 0 then 1 else 10 * PowerOfTen(k - 1)
  }

  /** The wallet name the guard builds is too short for the Ed25519 worker when the
      user's ID has fewer than seven digits: such a deduction passes only with all
      three other votes, and within the HMAC worker's limit. */
  lemma {:induction false} ShortUserNeedsTheOtherThree(
    events: seq<Event>, c: nat, id: string, telegramId: nat, amountNano: int, serviceId: string)
    requires c < |Run(SHIPPED, events).calls| && telegramId < 1_000_000
    requires Run(SHIPPED, events).calls[c].tx == DeductTx(id, telegramId, amountNano, serviceId)
    requires CheckDeduct(Verdict(Run(SHIPPED, events).calls[c], DEFAULT_THRESHOLD, 4)).None?
    ensures YesSet(Run(SHIPPED, events).calls[c]) == {0, 2, 3}
    ensures 0 < amountNano <= MAX_HMAC_NANO && serviceId != ""
  {
    var call := Run(SHIPPED, events).calls[c];
    YesAmongShipped(events, c);
    ShortNumber(telegramId, 6, 1_000_000);
    if 1 in YesSet(call) {
      ApprovalMeansChecked(SHIPPED, events, c, 1);
    }
    assert |{0, 2, 3}| == 3;
    SubsetSize(YesSet(call), {0, 2, 3});
    ApprovalMeansChecked(SHIPPED, events, c, 0);
    ApprovalMeansChecked(SHIPPED, events, c, 2);
  }

  lemma ApprovalsNext(calls: seq<Call>, n: nat, id: string, threshold: nat, workers: nat)
    requires n < |calls|
    ensures Approvals(calls[..n + 1], id, threshold, workers) ==
      Approvals(calls[..n], id, threshold, workers) + Counts(calls[n], id, threshold, workers)
  {
    assert calls[..n + 1][..n] == calls[..n];
  }

  lemma {:induction false} ApprovalsGrow(calls: seq<Call>, m: nat, n: nat, id: string, threshold: nat, workers: nat)
    requires m <= n <= |calls|
    ensures Approvals(calls[..m], id, threshold, workers) <= Approvals(calls[..n], id, threshold, workers)
    decreases n
  {
    if m < n {
      ApprovalsGrow(calls, m, n - 1, id, threshold, workers);
      ApprovalsNext(calls, n - 1, id, threshold, workers);
    }
  }

  lemma TwoApprovals(calls: seq<Call>, a: nat, b: nat, id: string, threshold: nat, workers: nat)
    requires a < b < |calls|
    requires Counts(calls[a], id, threshold, workers) == Counts(calls[b], id, threshold, workers) == 1
    ensures Approvals(calls, id, threshold, workers) >= 2
  {
    ApprovalsNext(calls, a, id, threshold, workers);
    ApprovalsGrow(calls, a + 1, b, id, threshold, workers);
    ApprovalsNext(calls, b, id, threshold, workers);
    ApprovalsGrow(calls, b + 1, |calls|, id, threshold, workers);
    assert calls[..|calls|] == calls;
  }

  /** Of two calls with one ID the quorum approves at most one. */
  lemma {:induction false} OneOfTwo(events: seq<Event>, a: nat, b: nat)
    requires a < b < |Run(SHIPPED, events).calls|
    requires Run(SHIPPED, events).calls[a].tx.id == Run(SHIPPED, events).calls[b].tx.id
    ensures !Approved(Run(SHIPPED, events).calls[a], DEFAULT_THRESHOLD, 4)
         || !Approved(Run(SHIPPED, events).calls[b], DEFAULT_THRESHOLD, 4)
  {
    var calls := Run(SHIPPED, events).calls;
    ShippedApprovesOnce(events, calls[a].tx.id);
    if Approved(calls[a], DEFAULT_THRESHOLD, 4) && Approved(calls[b], DEFAULT_THRESHOLD, 4) {
      TwoApprovals(calls, a, b, calls[a].tx.id, DEFAULT_THRESHOLD, 4);
    }
  }

  lemma DepositIds(userA: int, userB: int, m: int, n: int, txHash: string)
    ensures DepositTx(userA, m, txHash).id == DepositTx(userB, n, txHash).id
  {}

  predicate DepositPassed(c: Call, txHash: string) {
    Finished(c, 4) && CheckDeposit(txHash, Verdict(c, DEFAULT_THRESHOLD, 4)).None?
  }

  /** One chain hash passes the deposit check at most once, whatever user or amount
      the two calls name. */
  lemma {:induction false} DepositPassesOnce(
    events: seq<Event>, a: nat, b: nat, txHash: string, userA: int, userB: int, m: int, n: int)
    requires a < b < |Run(SHIPPED, events).calls| && txHash != ""
    requires Run(SHIPPED, events).calls[a].tx == DepositTx(userA, m, txHash)
    requires Run(SHIPPED, events).calls[b].tx == DepositTx(userB, n, txHash)
    ensures !DepositPassed(Run(SHIPPED, events).calls[a], txHash)
         || !DepositPassed(Run(SHIPPED, events).calls[b], txHash)
  {
    DepositIds(userA, userB, m, n, txHash);
    OneOfTwo(events, a, b);
  }
}
