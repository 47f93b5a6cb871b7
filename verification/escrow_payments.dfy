/** Who is paid how often: join rewards under every interleaving of scans, credits,
    lost answers, failing marks, crashes and fraud reversals. */
module EscrowPayments {
  import opened Text
  import opened Escrow

  // -------------------------------------------------------------------- invariant

  predicate Distinct(rows: seq<nat>) {
    forall i, j | 0 <= i < j < |rows| :: rows[i] != rows[j]
  }

  /** The pass has credited row i and not yet dealt with the mark. */
  predicate InHand(s: State, i: nat) {
    s.paid && s.due != [] && s.due[0] == i
  }

  /** Every credit but the last has gone unmarked; the last one too while the row is
      pending or waits in the pass. */
  predicate RowPaid(s: State, i: nat)
    requires i < |s.rewards|
  {
    var x := s.rewards[i];
    && x.unmarked <= x.credited <= x.unmarked + 1 && (i in s.due ==> x.status != RewardSettled)
    && (InHand(s, i) || x.status == RewardSettled ==> x.credited == x.unmarked + 1)
    && (!InHand(s, i) && (x.status == RewardPending || i in s.due) ==> x.credited == x.unmarked)
  }

  predicate Payments(s: State) {
    && Distinct(s.due)
    && (forall k | 0 <= k < |s.due| :: s.due[k] < |s.rewards|)
    && (s.paid ==> s.due != [])
    && (forall i | 0 <= i < |s.rewards| :: RowPaid(s, i))
  }

  lemma {:induction false} DueAreDistinctPending(rewards: seq<Reward>, now: int, limit: nat)
    ensures var due := FindDueRewards(rewards, now, limit);
      && Distinct(due) && |due| <= limit
      && forall k | 0 <= k < |due| ::
        due[k] < |rewards| && rewards[due[k]].status == RewardPending && rewards[due[k]].settleAt <= now
  {
    if rewards != [] {
      DueAreDistinctPending(rewards[..|rewards| - 1], now, limit);
    }
  }

  lemma ScanKeepsPayments(s: State, now: int)
    requires Payments(s)
    ensures Payments(SettlementStep(s, ScanDue(now)))
  {
    var s' := SettlementStep(s, ScanDue(now));
    DueAreDistinctPending(s.rewards, now, DUE_LIMIT);
    if s' != s {
      forall i | 0 <= i < |s'.rewards|
        ensures RowPaid(s', i)
      {
        assert RowPaid(s, i);
      }
    }
  }

  /** The rows of the pass but its first. */
  lemma RestOfPass(s: State)
    requires Payments(s) && s.due != []
    ensures s.due[0] !in s.due[1..] && Distinct(s.due[1..])
    ensures forall i :: i in s.due <==> i == s.due[0] || i in s.due[1..]
  {}

  lemma PassKeepsPayments(s: State, e: Event)
    requires Payments(s) && IsSettlement(e) && !e.ScanDue?
    ensures Payments(SettlementStep(s, e))
  {
    var s' := SettlementStep(s, e);
    if s.due != [] {
      RestOfPass(s);
      assert RowPaid(s, s.due[0]);
    }
    forall i | 0 <= i < |s'.rewards|
      ensures RowPaid(s', i)
    {
      assert RowPaid(s, i);
    }
  }

  lemma RowChangeKeepsPayments(s: State, e: Event)
    requires Payments(s) && (e.Reverse? || e.JoinRecord?)
    ensures Payments(Step(s, e))
  {
    var s' := Step(s, e);
    forall i | 0 <= i < |s'.rewards|
      ensures RowPaid(s', i)
    {
      assert i < |s.rewards| ==> RowPaid(s, i);
    }
  }

  lemma StepKeepsPayments(s: State, e: Event)
    requires Payments(s)
    ensures Payments(Step(s, e))
  {
    if e.ScanDue? {
      ScanKeepsPayments(s, e.now);
    } else if IsSettlement(e) {
      PassKeepsPayments(s, e);
    } else if e.Reverse? || e.JoinRecord? {
      RowChangeKeepsPayments(s, e);
    } else {
      OthersPayNothing(s, e);
      SamePayments(s, Step(s, e));
    }
  }

  lemma OthersPayNothing(s: State, e: Event)
    requires !IsSettlement(e) && !e.Reverse? && !e.JoinRecord?
    ensures var s' := Step(s, e); s'.rewards == s.rewards && s'.due == s.due && s'.paid == s.paid
  {}

  lemma SamePayments(s: State, s': State)
    requires Payments(s) && s'.rewards == s.rewards && s'.due == s.due && s'.paid == s.paid
    ensures Payments(s')
  {
    forall i | 0 <= i < |s'.rewards|
      ensures RowPaid(s', i)
    {
      assert RowPaid(s, i);
    }
  }

  /** In every reachable state a row has been credited at most once more than credits
      of it went unmarked; so a second credit means an unmarked first one. */
  lemma {:induction false} ExtraCreditsWentUnmarked(events: seq<Event>)
    ensures Payments(Run(events))
    decreases |events|
  {
    if events != [] {
      ExtraCreditsWentUnmarked(events[..|events| - 1]);
      StepKeepsPayments(Run(events[..|events| - 1]), events[|events| - 1]);
    }
  }

  // ------------------------------------------------------------ when a row is paid again

  ghost predicate NeverCreditedFrom(s: State, i: nat)
    requires i < |s.rewards|
  {
    forall events: seq<Event> ::
      i < |RunFrom(s, events).rewards| && RunFrom(s, events).rewards[i].credited == s.rewards[i].credited
  }

  /** The row can no longer be credited: it is out of pending, and the pass has it at
      most in hand. */
  predicate Closed(s: State, i: nat)
    requires i < |s.rewards|
  {
    s.rewards[i].status != RewardPending && (i !in s.due || InHand(s, i))
  }

  lemma StepKeepsClosed(s: State, e: Event, i: nat)
    requires Payments(s) && i < |s.rewards| && Closed(s, i)
    ensures var t := Step(s, e);
      i < |t.rewards| && Closed(t, i) && t.rewards[i].credited == s.rewards[i].credited
  {
    if IsSettlement(e) {
      PassKeepsClosed(s, e, i);
    } else if !e.Reverse? && !e.JoinRecord? {
      OthersPayNothing(s, e);
    }
  }

  lemma PassKeepsClosed(s: State, e: Event, i: nat)
    requires Payments(s) && i < |s.rewards| && Closed(s, i) && IsSettlement(e)
    ensures var t := SettlementStep(s, e);
      i < |t.rewards| && Closed(t, i) && t.rewards[i].credited == s.rewards[i].credited
  {
    if e.ScanDue? {
      DueAreDistinctPending(s.rewards, e.now, DUE_LIMIT);
    } else if s.due != [] {
      RestOfPass(s);
    }
  }

  lemma {:induction false} ClosedStays(s: State, events: seq<Event>, i: nat)
    requires Payments(s) && i < |s.rewards| && Closed(s, i)
    ensures var t := RunFrom(s, events);
      Payments(t) && i < |t.rewards| && Closed(t, i) && t.rewards[i].credited == s.rewards[i].credited
    decreases |events|
  {
    if events != [] {
      ClosedStays(s, events[..|events| - 1], i);
      StepKeepsClosed(RunFrom(s, events[..|events| - 1]), events[|events| - 1], i);
      StepKeepsPayments(RunFrom(s, events[..|events| - 1]), events[|events| - 1]);
    }
  }

  // --------------------------------------------------- continuations that pay once more

  /** Nothing goes wrong with a credit that was applied. */
  predicate NoneForgotten(events: seq<Event>) {
    forall e | e in events :: !e.CreditLost? && !e.MarkFails? && !e.Crash?
  }

  lemma {:induction false} RunSplits(s: State, a: seq<Event>, b: seq<Event>)
    ensures RunFrom(s, a + b) == RunFrom(RunFrom(s, a), b)
    decreases |b|
  {
    if b == [] {
      assert a + b == a;
    } else {
      var n := |b| - 1;
      assert (a + b)[..|a + b| - 1] == a + b[..n];
      RunSplits(s, a, b[..n]);
    }
  }

  lemma RunOne(s: State, e: Event)
    ensures RunFrom(s, [e]) == Step(s, e)
  {
    assert [e][..0] == [];
  }

  lemma RunAfter(s: State, e: Event, rest: seq<Event>)
    ensures RunFrom(s, [e] + rest) == RunFrom(Step(s, e), rest)
  {
    RunSplits(s, [e], rest);
    RunOne(s, e);
  }

  /** The pass goes on until it has credited row i. */
  lemma {:induction false} RowInPassGetsCredited(s: State, i: nat) returns (events: seq<Event>)
    requires Payments(s) && i in s.due && !InHand(s, i)
    ensures NoneForgotten(events) && i < |RunFrom(s, events).rewards|
    ensures RunFrom(s, events).rewards[i].credited == s.rewards[i].credited + 1
    decreases |s.due|
  {
    RestOfPass(s);
    if s.due[0] == i {
      events := [CreditFirst];
      RunOne(s, CreditFirst);
    } else {
      var skip := if s.paid then SettleFirst else CreditFails;
      StepKeepsPayments(s, skip);
      var rest := RowInPassGetsCredited(Step(s, skip), i);
      events := [skip] + rest;
      RunAfter(s, skip, rest);
    }
  }

  /** The pass runs out without touching row i. */
  lemma {:induction false} PassRunsOut(s: State, i: nat) returns (events: seq<Event>)
    requires Payments(s) && i < |s.rewards| && i !in s.due
    ensures NoneForgotten(events) && Payments(RunFrom(s, events)) && RunFrom(s, events).due == []
    ensures var t := RunFrom(s, events); |t.rewards| == |s.rewards| && t.rewards[i] == s.rewards[i]
    decreases |s.due|
  {
    if s.due == [] {
      events := [];
    } else {
      RestOfPass(s);
      var skip := if s.paid then SettleFirst else CreditFails;
      StepKeepsPayments(s, skip);
      var rest := PassRunsOut(Step(s, skip), i);
      events := [skip] + rest;
      RunAfter(s, skip, rest);
    }
  }

  /** Every pending row but i, from n on, is reversed. */
  lemma {:induction false} OthersReversed(s: State, i: nat, n: nat) returns (events: seq<Event>)
    requires Payments(s) && i < |s.rewards| && s.due == [] && n <= |s.rewards|
    requires forall k | 0 <= k < n && k != i :: s.rewards[k].status != RewardPending
    ensures NoneForgotten(events) && Payments(RunFrom(s, events)) && RunFrom(s, events).due == []
    ensures var t := RunFrom(s, events);
      && |t.rewards| == |s.rewards| && t.rewards[i] == s.rewards[i]
      && forall k | 0 <= k < |t.rewards| && k != i :: t.rewards[k].status != RewardPending
    decreases |s.rewards| - n
  {
    if n == |s.rewards| {
      events := [];
    } else if n == i {
      events := OthersReversed(s, i, n + 1);
    } else {
      StepKeepsPayments(s, Reverse(n));
      var rest := OthersReversed(Step(s, Reverse(n)), i, n + 1);
      events := [Reverse(n)] + rest;
      RunAfter(s, Reverse(n), rest);
    }
  }

  lemma {:induction false} OnlyDueRow(rewards: seq<Reward>, i: nat, now: int, limit: nat)
    requires i < |rewards| && limit > 0 && rewards[i].status == RewardPending && rewards[i].settleAt <= now
    requires forall k | 0 <= k < |rewards| && k != i :: rewards[k].status != RewardPending
    ensures FindDueRewards(rewards, now, limit) == [i]
    decreases |rewards|
  {
    var n := |rewards| - 1;
    if i < n {
      OnlyDueRow(rewards[..n], i, now, limit);
    } else {
      NoDueRow(rewards[..n], now, limit);
    }
  }

  lemma {:induction false} NoDueRow(rewards: seq<Reward>, now: int, limit: nat)
    requires forall k | 0 <= k < |rewards| :: rewards[k].status != RewardPending
    ensures FindDueRewards(rewards, now, limit) == []
    decreases |rewards|
  {
    if rewards != [] {
      NoDueRow(rewards[..|rewards| - 1], now, limit);
    }
  }

  /** A pending row outside the pass is credited once more by a later pass, with
      nothing going wrong on the way. */
  lemma PendingRowGetsCredited(s: State, i: nat) returns (events: seq<Event>)
    requires Payments(s) && i < |s.rewards| && s.rewards[i].status == RewardPending && i !in s.due
    ensures NoneForgotten(events) && i < |RunFrom(s, events).rewards|
    ensures RunFrom(s, events).rewards[i].credited == s.rewards[i].credited + 1
  {
    var drain := PassRunsOut(s, i);
    var clear := OthersReversed(RunFrom(s, drain), i, 0);
    RunSplits(s, drain, clear);
    var t := RunFrom(s, drain + clear);
    var scan := ScanDue(t.rewards[i].settleAt);
    OnlyDueRow(t.rewards, i, t.rewards[i].settleAt, DUE_LIMIT);
    StepKeepsPayments(t, scan);
    var rest := RowInPassGetsCredited(Step(t, scan), i);
    RunAfter(t, scan, rest);
    events := (drain + clear) + ([scan] + rest);
    RunSplits(s, drain + clear, [scan] + rest);
  }

  // ----------------------------------------------------------------------- main results

  /** From any state a run can reach, a row is never credited again if and only if it
      is out of pending and the pass has it at most in hand. */
  lemma NeverCreditedAgainIff(s: State, i: nat)
    requires Payments(s) && i < |s.rewards|
    ensures NeverCreditedFrom(s, i) <==> Closed(s, i)
  {
    if Closed(s, i) {
      forall events: seq<Event>
        ensures i < |RunFrom(s, events).rewards| && RunFrom(s, events).rewards[i].credited == s.rewards[i].credited
      {
        ClosedStays(s, events, i);
      }
    } else if InHand(s, i) {
      RestOfPass(s);
      StepKeepsPayments(s, MarkFails);
      var rest := PendingRowGetsCredited(Step(s, MarkFails), i);
      RunAfter(s, MarkFails, rest);
      assert RunFrom(s, [MarkFails] + rest).rewards[i].credited != s.rewards[i].credited;
    } else if i in s.due {
      var events := RowInPassGetsCredited(s, i);
      assert RunFrom(s, events).rewards[i].credited != s.rewards[i].credited;
    } else {
      var events := PendingRowGetsCredited(s, i);
      assert RunFrom(s, events).rewards[i].credited != s.rewards[i].credited;
    }
  }

  /** The table promises that a reversed reward is never paid out. For a reversal now
      that holds exactly when the row has not been credited and waits in no pass. */
  lemma ReversedNeverPaidIff(s: State, i: nat)
    requires Payments(s) && i < |s.rewards| && s.rewards[i].status == RewardPending
    ensures var t := Step(s, Reverse(i));
      && i < |t.rewards| && t.rewards[i].status == RewardReversed
      && ((t.rewards[i].credited == 0 && NeverCreditedFrom(t, i)) <==>
          (s.rewards[i].credited == 0 && i !in s.due))
  {
    StepKeepsPayments(s, Reverse(i));
    NeverCreditedAgainIff(Step(s, Reverse(i)), i);
    assert RowPaid(s, i);
  }

  lemma {:induction false} UnmarkedStays(s: State, events: seq<Event>, i: nat)
    requires i < |s.rewards| && NoneForgotten(events)
    ensures i < |RunFrom(s, events).rewards| && RunFrom(s, events).rewards[i].unmarked == s.rewards[i].unmarked
    decreases |events|
  {
    if events != [] {
      assert events[|events| - 1] in events;
      UnmarkedStays(s, events[..|events| - 1], i);
    }
  }

  lemma {:induction false} PaymentsStay(s: State, events: seq<Event>)
    requires Payments(s)
    ensures Payments(RunFrom(s, events))
    decreases |events|
  {
    if events != [] {
      PaymentsStay(s, events[..|events| - 1]);
      StepKeepsPayments(RunFrom(s, events[..|events| - 1]), events[|events| - 1]);
    }
  }

  predicate PaidAtMostOnce(s: State, i: nat, events: seq<Event>) {
    var t := RunFrom(s, events);
    i < |t.rewards| ==> t.rewards[i].credited <= 1
  }

  /** A pending row is paid at most once by all that follows, with nothing more going
      wrong, if and only if no credit of it has gone unmarked so far. */
  lemma PaidAtMostOnceIff(s: State, i: nat)
    requires Payments(s) && i < |s.rewards| && s.rewards[i].status == RewardPending && !InHand(s, i)
    ensures (forall events | NoneForgotten(events) :: PaidAtMostOnce(s, i, events)) <==> s.rewards[i].unmarked == 0
  {
    assert RowPaid(s, i);
    if s.rewards[i].unmarked == 0 {
      forall events | NoneForgotten(events)
        ensures PaidAtMostOnce(s, i, events)
      {
        PaymentsStay(s, events);
        UnmarkedStays(s, events, i);
        assert RowPaid(RunFrom(s, events), i);
      }
    } else {
      var events;
      if i in s.due {
        events := RowInPassGetsCredited(s, i);
      } else {
        events := PendingRowGetsCredited(s, i);
      }
      assert !PaidAtMostOnce(s, i, events);
    }
  }

  /** When no applied credit is forgotten, no run credits any reward twice, and a
      settled one has been credited exactly once. */
  lemma CreditedAtMostOnce(events: seq<Event>, i: nat)
    requires NoneForgotten(events) && i < |Run(events).rewards|
    ensures Run(events).rewards[i].credited <= 1
    ensures Run(events).rewards[i].status == RewardSettled ==> Run(events).rewards[i].credited == 1
  {
    ExtraCreditsWentUnmarked(events);
    NothingUnmarked(events, i);
    assert RowPaid(Run(events), i);
  }

  lemma {:induction false} NothingUnmarked(events: seq<Event>, i: nat)
    requires NoneForgotten(events) && i < |Run(events).rewards|
    ensures Run(events).rewards[i].unmarked == 0
    decreases |events|
  {
    if events != [] {
      assert events[|events| - 1] in events;
      if i < |Run(events[..|events| - 1]).rewards| {
        NothingUnmarked(events[..|events| - 1], i);
      }
    }
  }

  /** What the fraud handler can rely on: with a clock that goes forward, no scan has
      come at or after the row's time when it is reversed before that time, and then
      it is never paid. */
  lemma ReversedInTimeIsNeverPaid(events: seq<Event>, i: nat, now: int)
    requires forall e | e in events && e.ScanDue? :: e.now <= now
    requires i < |Run(events).rewards| && now < Run(events).rewards[i].settleAt
    requires Run(events).rewards[i].status == RewardPending
    ensures var t := Step(Run(events), Reverse(i));
      i < |t.rewards| && t.rewards[i].credited == 0 && NeverCreditedFrom(t, i)
  {
    ExtraCreditsWentUnmarked(events);
    NotYetDue(events, i, now);
    ReversedNeverPaidIff(Run(events), i);
  }

  lemma NotYetDueStep(s: State, e: Event, i: nat, now: int)
    requires Payments(s) && (e.ScanDue? ==> e.now <= now) && i < |s.rewards| && now < s.rewards[i].settleAt
    requires i !in s.due && s.rewards[i].credited == 0
    ensures i !in Step(s, e).due && Step(s, e).rewards[i].credited == 0
  {
    if e.ScanDue? {
      DueAreDistinctPending(s.rewards, e.now, DUE_LIMIT);
    } else if IsSettlement(e) && s.due != [] {
      RestOfPass(s);
    }
  }

  lemma TermStays(s: State, e: Event, i: nat)
    requires i < |s.rewards|
    ensures i < |Step(s, e).rewards| && Step(s, e).rewards[i].settleAt == s.rewards[i].settleAt
  {}

  lemma {:induction false} NotYetDue(events: seq<Event>, i: nat, now: int)
    requires forall e | e in events && e.ScanDue? :: e.now <= now
    requires i < |Run(events).rewards| && now < Run(events).rewards[i].settleAt
    ensures i !in Run(events).due && Run(events).rewards[i].credited == 0
    decreases |events|
  {
    if events != [] {
      var before, e := Run(events[..|events| - 1]), events[|events| - 1];
      assert e in events;
      ExtraCreditsWentUnmarked(events[..|events| - 1]);
      if i < |before.rewards| {
        TermStays(before, e, i);
        NotYetDue(events[..|events| - 1], i, now);
        NotYetDueStep(before, e, i, now);
      }
    }
  }

  // ------------------------------------------------------------------ the failing runs

  lemma ThreeSteps(s: State, a: Event, b: Event, c: Event)
    ensures RunFrom(s, [a, b, c]) == Step(Step(Step(s, a), b), c)
  {
    RunAfter(s, a, [b, c]);
    RunAfter(Step(s, a), b, [c]);
    RunOne(Step(Step(s, a), b), c);
    assert [a] + [b, c] == [a, b, c] && [b] + [c] == [b, c];
  }

  /** One rental, approved. */
  function Approved(): State {
    State([Rental(7, Active, 1.0, 10.0, 0.0, 0.0, 0, Some(RENTAL_DURATION), 0.0, 1, 0)], [], [],
          [Approval(0, StatusWritten)], [], false)
  }

  /** One join of it, due at the end of the delay. */
  function Joined(): State {
    State([Approved().rentals[0].(spent := 1.0, joins := 1)],
          [Reward(0, 1, 1.0, RewardPending, SETTLEMENT_DELAY, 0, 0)], [Join(0, 1, 1.0, Added)],
          [Approval(0, StatusWritten)], [], false)
  }

  function Approval3(): seq<Event> {
    [Propose(7, 10.0, 1.0, 0.0), ApproveRead(0), ApproveWrite(0, 0)]
  }

  function Join3(): seq<Event> {
    [JoinRead(0, 1, 0), JoinRecord(0, 0), JoinAdd(0)]
  }

  function OneJoin(): seq<Event> {
    Approval3() + Join3()
  }

  lemma Approval3Runs()
    ensures RunFrom(EMPTY, Approval3()) == Approved()
  {
    var es := Approval3();
    ThreeSteps(EMPTY, es[0], es[1], es[2]);
    var s1 := Step(EMPTY, es[0]);
    assert s1.rentals == [Rental(7, PendingReview, 1.0, 10.0, 0.0, 0.0, 0, None, 0.0, 0, 0)];
    assert Step(s1, es[1]) == s1.(approvals := [Approval(0, StatusRead)]);
  }

  lemma Join3Runs()
    ensures RunFrom(Approved(), Join3()) == Joined()
  {
    var s, es := Approved(), Join3();
    ThreeSteps(s, es[0], es[1], es[2]);
    var s1 := Step(s, es[0]);
    assert s1 == s.(joins := [Join(0, 1, 1.0, Checked)]);
    assert Step(s1, es[1]) == s.(joins := [Join(0, 1, 1.0, Recorded)], rewards := Joined().rewards);
  }

  lemma OneJoinRuns()
    ensures Run(OneJoin()) == Joined()
  {
    Approval3Runs();
    Join3Runs();
    RunSplits(EMPTY, Approval3(), Join3());
  }

  /** A pass whose mark fails pays without settling. */
  function FailedPass(now: int): seq<Event> {
    [ScanDue(now), CreditFirst, MarkFails]
  }

  lemma CreditedUnmarked(s: State)
    requires s.due == [0] && !s.paid && |s.rewards| == 1
    ensures var x := s.rewards[0];
      Step(Step(s, CreditFirst), MarkFails) ==
      s.(rewards := [x.(credited := x.credited + 1, unmarked := x.unmarked + 1)], due := [])
  {}

  lemma FailedPassPays(s: State, now: int)
    requires s.due == [] && !s.paid && |s.rewards| == 1
    requires s.rewards[0].status == RewardPending && s.rewards[0].settleAt <= now
    ensures var x := s.rewards[0];
      RunFrom(s, FailedPass(now)) == s.(rewards := [x.(credited := x.credited + 1, unmarked := x.unmarked + 1)])
  {
    ThreeSteps(s, ScanDue(now), CreditFirst, MarkFails);
    OnlyDueRow(s.rewards, 0, now, DUE_LIMIT);
    assert Step(s, ScanDue(now)) == s.(due := [0]);
    CreditedUnmarked(s.(due := [0]));
  }

  /** Two passes whose marks fail pay one reward twice. */
  lemma TwoFailedMarksPayTwice()
    ensures var s := Run(OneJoin() + (FailedPass(SETTLEMENT_DELAY) + FailedPass(SETTLEMENT_DELAY + 300)));
      |s.rewards| == 1 && s.rewards[0].credited == 2 && s.rewards[0].status == RewardPending
  {
    OneJoinRuns();
    var a, b := FailedPass(SETTLEMENT_DELAY), FailedPass(SETTLEMENT_DELAY + 300);
    RunSplits(EMPTY, OneJoin(), a + b);
    RunSplits(Joined(), a, b);
    FailedPassPays(Joined(), SETTLEMENT_DELAY);
    FailedPassPays(RunFrom(Joined(), a), SETTLEMENT_DELAY + 300);
  }

  /** After one, a fraud reversal finds the row pending and in no pass, and reverses
      a reward that has been paid. */
  lemma FailedMarkThenReversed()
    ensures var s := Run(OneJoin() + FailedPass(SETTLEMENT_DELAY));
      && |s.rewards| == 1 && s.due == [] && s.rewards[0].status == RewardPending
      && var t := Step(s, Reverse(0)); t.rewards[0].status == RewardReversed && t.rewards[0].credited == 1
  {
    OneJoinRuns();
    RunSplits(EMPTY, OneJoin(), FailedPass(SETTLEMENT_DELAY));
    FailedPassPays(Joined(), SETTLEMENT_DELAY);
  }
}
