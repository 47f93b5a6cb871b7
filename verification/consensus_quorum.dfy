/** When the vote does approve: workers that meet no objection vote for a transaction they
    have not seen, and enough of their votes carry it, whatever the others do. */
module ConsensusQuorum {
  import opened Text
  import opened Consensus
  import opened ConsensusRuns

  // ------------------------------------------------------------------ sound transactions

  /** At most half a minute ahead and five minutes old. */
  predicate Timely(age: int) {
    -30_000_000_000 <= age <= 300_000_000_000
  }

  /** What the four shipped workers ask for, all together. */
  predicate Sound(tx: Tx, age: int, cryptoOk: bool) {
    && 0 < tx.amountNano <= 100_000_000_000_000
    && Timely(age)
    && |tx.fromWallet| >= 10 && tx.toService != "" && cryptoOk
  }

  /** No shipped worker objects to a transaction if and only if it is sound. */
  lemma SoundMeetsNoObjection(tx: Tx, age: int, cryptoOk: bool)
    ensures (forall w: nat | w < 4 :: Objection(SHIPPED[w], tx, age, cryptoOk).None?) <==> Sound(tx, age, cryptoOk)
  {
    if forall w: nat | w < 4 :: Objection(SHIPPED[w], tx, age, cryptoOk).None? {
      assert Objection(SHIPPED[0], tx, age, cryptoOk).None? && Objection(SHIPPED[1], tx, age, cryptoOk).None?;
      assert Objection(SHIPPED[2], tx, age, cryptoOk).None? && Objection(SHIPPED[3], tx, age, cryptoOk).None?;
    }
  }

  /** Each check is asked for by its workers alone: an amount above the HMAC worker's limit
      and within the Merkle worker's, an old timestamp, a short name, a missing service and
      failing cryptography leave exactly the others without objection. */
  lemma EachObjectsToItsOwn(tx: Tx, age: int, cryptoOk: bool)
    requires 0 < tx.amountNano <= 1_000_000_000_000_000
    ensures Objection(Hmac, tx, age, cryptoOk).None? <==>
      tx.amountNano <= 100_000_000_000_000 && -30_000_000_000 <= age <= 300_000_000_000
    ensures Objection(Ed25519, tx, age, cryptoOk).None? <==> |tx.fromWallet| >= 10 && cryptoOk
    ensures Objection(Aes, tx, age, cryptoOk).None? <==> tx.toService != "" && cryptoOk
    ensures Objection(Merkle, tx, age, cryptoOk).None?
  {}

  lemma {:induction false} LongNumber(n: nat, k: nat)
    requires n >= PowerOfTen(k)
    ensures |Digits(n)| >= k + 1
    decreases k
  {
    if k > 0 {
      LongNumber(n / 10, k - 1);
    }
  }

  /** No worker objects to a deduction exactly when the user's ID has seven digits at
      least, the service is named, and the amount is within the HMAC worker's limit. */
  lemma DeductIsSoundIff(id: string, user: nat, amount: int, serviceId: string, age: int, cryptoOk: bool)
    ensures Sound(DeductTx(id, user, amount, serviceId), age, cryptoOk) <==>
      user >= 1_000_000 && 0 < amount <= 100_000_000_000_000 && serviceId != "" && Timely(age) && cryptoOk
  {
    if user < 1_000_000 {
      ShortNumber(user, 6, 1_000_000);
    } else {
      LongNumber(user, 6);
    }
  }

  /** The name of a withdrawing wallet is never too short. */
  lemma WithdrawIsSoundIff(id: string, user: int, amount: int, toAddress: string, age: int, cryptoOk: bool)
    ensures Sound(WithdrawTx(id, user, amount, toAddress), age, cryptoOk) <==>
      0 < amount <= 100_000_000_000_000 && toAddress != "" && Timely(age) && cryptoOk
  {
    assert |"-withdraw"| == 9 && |"tg-"| == 3;
  }

  /** A deposit's sender is its chain hash. */
  lemma DepositIsSoundIff(user: int, amount: int, txHash: string, age: int, cryptoOk: bool)
    ensures Sound(DepositTx(user, amount, txHash), age, cryptoOk) <==>
      0 < amount <= 100_000_000_000_000 && |txHash| >= 10 && Timely(age) && cryptoOk
  {
    assert "wallet-tg-" + Decimal(user) != "";
  }

  /** Deductions, and deposits with a chain hash, pass with three approvals of the four;
      withdrawals when besides nobody else is collected and nobody timed out. */
  lemma GuardsPassIff(c: Call, txHash: string)
    ensures var r := Verdict(c, DEFAULT_THRESHOLD, 4);
      && (CheckDeduct(r).None? <==> |YesSet(c)| >= 3)
      && (CheckDeposit(txHash, r).None? <==> txHash == "" || |YesSet(c)| >= 3)
      && (CheckWithdraw(r).None? <==> |YesSet(c)| >= 3 && c.collected <= YesSet(c) && c.timeouts == 0)
  {
    assert |c.collected - YesSet(c)| == 0 <==> c.collected - YesSet(c) == {};
    assert c.collected - YesSet(c) == {} <==> c.collected <= YesSet(c);
  }

  // ----------------------------------------------------------------------- statistics

  /** A call's loop adds to the statistics of each worker it picked that one vote, and
      nothing for a timeout. */
  lemma {:induction false} EachVoteCountsOnce(
    stats: map<nat, WorkerStats>, votes: map<nat, bool>, picks: seq<Pick>, w: nat)
    requires Arrivals(votes, picks) && w in stats
    ensures var after := Tally(stats, votes, picks);
      && after.Keys == stats.Keys
      && after[w].total == stats[w].total + (if FromWorker(w) in picks then 1 else 0)
      && after[w].approved == stats[w].approved + (if w in Approvers(votes, picks) then 1 else 0)
      && after[w].rejected == stats[w].rejected
           + (if FromWorker(w) in picks && w !in Approvers(votes, picks) then 1 else 0)
    decreases |picks|
  {
    if picks != [] {
      var n := |picks| - 1;
      assert picks == picks[..n] + [picks[n]];
      EachVoteCountsOnce(stats, votes, picks[..n], w);
      ApproversNext(votes, picks);
    }
  }

  lemma ApproversNext(votes: map<nat, bool>, picks: seq<Pick>)
    requires Arrivals(votes, picks) && picks != []
    ensures var n := |picks| - 1; var pick := picks[n];
      && Approvers(votes, picks) ==
           Approvers(votes, picks[..n]) + (if pick.FromWorker? && votes[pick.w] then {pick.w} else {})
      && (pick.FromWorker? ==> pick.w !in Approvers(votes, picks[..n]) && pick !in picks[..n])
  {}

  // ----------------------------------------------------------- records come from votes

  ghost predicate VotedOn(s: State, w: nat, id: string) {
    exists d: nat :: d < |s.calls| && s.calls[d].tx.id == id && w in s.calls[d].votes
  }

  /** A worker has on record only what it has voted on. */
  ghost predicate RecordsAreVotes(kinds: seq<WorkerKind>, s: State) {
    && |s.records| == |kinds|
    && forall w: nat, id | w < |kinds| && id in s.records[w] :: VotedOn(s, w, id)
  }

  /** Calls keep their transaction and their votes. */
  predicate CallsGrow(before: seq<Call>, after: seq<Call>) {
    && |before| <= |after|
    && forall d | 0 <= d < |before| ::
         after[d].tx == before[d].tx && before[d].votes.Keys <= after[d].votes.Keys
  }

  lemma VotedStays(s: State, t: State, w: nat, id: string)
    requires VotedOn(s, w, id) && CallsGrow(s.calls, t.calls)
    ensures VotedOn(t, w, id)
  {
    var d: nat :| d < |s.calls| && s.calls[d].tx.id == id && w in s.calls[d].votes;
    assert w in t.calls[d].votes;
  }

  lemma CallsStay(kinds: seq<WorkerKind>, s: State, e: Event)
    requires |s.records| == |kinds|
    ensures CallsGrow(s.calls, Step(kinds, s, e).calls)
  {}

  lemma StepKeepsRecords(kinds: seq<WorkerKind>, s: State, e: Event)
    requires RecordsAreVotes(kinds, s)
    ensures RecordsAreVotes(kinds, Step(kinds, s, e))
  {
    var t := Step(kinds, s, e);
    CallsStay(kinds, s, e);
    forall w: nat, id | w < |kinds| && id in t.records[w]
      ensures VotedOn(t, w, id)
    {
      if id in s.records[w] {
        VotedStays(s, t, w, id);
      } else {
        assert e.Work? && t.calls[e.call].tx.id == id && w in t.calls[e.call].votes;
      }
    }
  }

  lemma NoRecords(n: nat, w: nat)
    requires w < n
    ensures w < |Empty(n)| && Empty(n)[w] == map[]
  {
    EmptySize(n);
  }

  lemma {:induction false} RunKeepsRecords(kinds: seq<WorkerKind>, events: seq<Event>)
    ensures RecordsAreVotes(kinds, Run(kinds, events))
    decreases |events|
  {
    if events == [] {
      EmptySize(|kinds|);
      forall w: nat | w < |kinds|
        ensures Empty(|kinds|)[w] == map[]
      {
        NoRecords(|kinds|, w);
      }
    } else {
      RunKeepsRecords(kinds, events[..|events| - 1]);
      StepKeepsRecords(kinds, Run(kinds, events[..|events| - 1]), events[|events| - 1]);
    }
  }

  // ------------------------------------------------------------------- an honest quorum

  /** No other call has the ID of call c. */
  predicate OnlyCall(s: State, c: nat)
    requires c < |s.calls|
  {
    forall d | 0 <= d < |s.calls| && d != c :: s.calls[d].tx.id != s.calls[c].tx.id
  }

  /** Whenever worker w runs on call c, its own checks of the transaction pass. */
  predicate ChecksPass(kinds: seq<WorkerKind>, events: seq<Event>, c: nat, w: nat, tx: Tx) {
    w < |kinds| && forall n | 0 <= n < |events| && events[n].Work? && events[n].call == c && events[n].worker == w ::
      Objection(kinds[w], tx, events[n].age, events[n].cryptoOk).None?
  }

  lemma OneStepVotesYes(kinds: seq<WorkerKind>, s: State, e: Event, c: nat, w: nat)
    requires RecordsAreVotes(kinds, s) && c < |s.calls| && w < |kinds| && OnlyCall(s, c)
    requires w in s.calls[c].votes ==> s.calls[c].votes[w]
    requires e.Work? && e.call == c && e.worker == w ==> Objection(kinds[w], s.calls[c].tx, e.age, e.cryptoOk).None?
    ensures var t := Step(kinds, s, e); c < |t.calls| && (w in t.calls[c].votes ==> t.calls[c].votes[w])
  {
    assert w !in s.calls[c].votes ==> !VotedOn(s, w, s.calls[c].tx.id);
  }

  /** A worker whose checks pass approves a transaction that no other call has asked it
      about, if it votes at all. */
  lemma {:induction false} FreshVoteIsYes(kinds: seq<WorkerKind>, events: seq<Event>, c: nat, w: nat)
    requires c < |Run(kinds, events).calls| && OnlyCall(Run(kinds, events), c)
    requires ChecksPass(kinds, events, c, w, Run(kinds, events).calls[c].tx)
    ensures var votes := Run(kinds, events).calls[c].votes; w in votes ==> votes[w]
    decreases |events|
  {
    if events != [] {
      var n := |events| - 1;
      var s := Run(kinds, events[..n]);
      CallsStay(kinds, s, events[n]);
      if c < |s.calls| {
        assert forall d | 0 <= d < |s.calls| :: s.calls[d].tx == Run(kinds, events).calls[d].tx;
        FreshVoteIsYes(kinds, events[..n], c, w);
        RunKeepsRecords(kinds, events[..n]);
        OneStepVotesYes(kinds, s, events[n], c, w);
      }
    }
  }

  /** If some workers are collected whose checks pass, and they reach the threshold, a
      transaction whose ID no other call has is approved, whatever the other workers vote
      and however many timeouts take their place. */
  lemma {:induction false} HonestQuorumApproves(
    kinds: seq<WorkerKind>, events: seq<Event>, c: nat, quorum: set<nat>, threshold: nat)
    requires c < |Run(kinds, events).calls| && OnlyCall(Run(kinds, events), c)
    requires quorum != {} && |quorum| >= threshold && quorum <= Run(kinds, events).calls[c].collected
    requires forall w | w in quorum :: ChecksPass(kinds, events, c, w, Run(kinds, events).calls[c].tx)
    ensures Verdict(Run(kinds, events).calls[c], threshold, |kinds|).approved
  {
    var call := Run(kinds, events).calls[c];
    RunKeepsInv(kinds, events);
    forall w | w in quorum
      ensures w in YesSet(call)
    {
      FreshVoteIsYes(kinds, events, c, w);
    }
    SubsetSize(quorum, YesSet(call));
    var w :| w in quorum;
    assert ChecksPass(kinds, events, c, w, call.tx);
  }

  /** So with the four shipped workers three votes carry a deduction, whatever the fourth
      does. */
  lemma ThreeCarryADeduction(events: seq<Event>, c: nat, a: nat, b: nat, d: nat)
    requires c < |Run(SHIPPED, events).calls| && OnlyCall(Run(SHIPPED, events), c)
    requires a != b && a != d && b != d && {a, b, d} <= Run(SHIPPED, events).calls[c].collected
    requires forall w | w in {a, b, d} :: ChecksPass(SHIPPED, events, c, w, Run(SHIPPED, events).calls[c].tx)
    ensures CheckDeduct(Verdict(Run(SHIPPED, events).calls[c], DEFAULT_THRESHOLD, 4)).None?
  {
    assert |{a, b, d}| == 3;
    HonestQuorumApproves(SHIPPED, events, c, {a, b, d}, DEFAULT_THRESHOLD);
  }

  /** And a withdrawal passes when all four are collected and their checks pass. */
  lemma {:induction false} AllFourCarryAWithdrawal(events: seq<Event>, c: nat)
    requires c < |Run(SHIPPED, events).calls| && OnlyCall(Run(SHIPPED, events), c)
    requires {0, 1, 2, 3} <= Run(SHIPPED, events).calls[c].collected
    requires forall w: nat | w < 4 :: ChecksPass(SHIPPED, events, c, w, Run(SHIPPED, events).calls[c].tx)
    ensures CheckWithdraw(Verdict(Run(SHIPPED, events).calls[c], DEFAULT_THRESHOLD, 4)).None?
  {
    var call, all: set<nat> := Run(SHIPPED, events).calls[c], {0, 1, 2, 3};
    assert |all| == 4;
    HonestQuorumApproves(SHIPPED, events, c, all, DEFAULT_THRESHOLD);
    RunNeverOverfills(SHIPPED, events, c);
    RunKeepsInv(SHIPPED, events);
    forall w | w in all
      ensures w in YesSet(call)
    {
      FreshVoteIsYes(SHIPPED, events, c, w);
    }
    SubsetSize(all, call.collected);
    assert call.collected - YesSet(call) == {};
  }
}
