/** What keeps a rental running, and what the check after each join finds: an active
    rental has money and time left. */
module EscrowUpkeep {
  import opened Text
  import opened Escrow
  import opened EscrowPayments
  import opened EscrowFinish

  // ------------------------------------------------------------------------- one check

  /** After the check at `now` an active rental takes joins at that time; one that was
      active and did not, is done; one with money left whose end lies ahead is as it was. */
  lemma CheckedIsActive(s: State, r: nat, now: int)
    requires r < |s.rentals|
    ensures var t := Step(s, MarkDone(r, now));
      && |t.rentals| == |s.rentals| && t == s.(rentals := t.rentals)
      && (forall q | 0 <= q < |s.rentals| && q != r :: t.rentals[q] == s.rentals[q])
      && var x, y := s.rentals[r], t.rentals[r];
      && (y.status == Active ==> y.IsActive(now))
      && (x.status == Active && !x.IsActive(now) ==> y == x.(status := Done, finishes := x.finishes + 1))
      && (x.RemainingBudget() > 0.0 && (x.endAt.Some? ==> now < x.endAt.value) ==> y == x)
      && (x.status != Active ==> y == x)
  {}

  /** An approved rental is active for thirty days, as long as it has money left. */
  lemma ApprovedForThirtyDays(s: State, a: nat, now: int, at: int)
    requires a < |s.approvals| && s.approvals[a].stage == StatusRead && s.approvals[a].rental < |s.rentals|
    ensures var r, t := s.approvals[a].rental, Step(s, ApproveWrite(a, now));
      && r < |t.rentals| && t.rentals[r].status == Active
      && (t.rentals[r].IsActive(at) <==> s.rentals[r].spent < s.rentals[r].budget && at <= now + 30 * 24 * 3600)
  {}

  // ------------------------------------------------------------ who uses the budget up

  /** Active, with nothing left to spend. */
  predicate UsedUp(s: State, r: nat) {
    r < |s.rentals| && s.rentals[r].status == Active && s.rentals[r].RemainingBudget() <= 0.0
  }

  predicate IsCheck(e: Event, r: nat) {
    e.MarkDone? && e.rental == r
  }

  /** A recorded join of r is added to what r has spent. */
  predicate AddsJoin(s: State, e: Event, r: nat) {
    e.JoinAdd? && e.join < |s.joins| && s.joins[e.join].stage == Recorded && s.joins[e.join].rental == r
  }

  predicate ReservesPool(s: State, e: Event, r: nat) {
    && e.ReservePool? && e.approval < |s.approvals|
    && s.approvals[e.approval] == Approval(r, StatusWritten)
  }

  predicate Approves(s: State, e: Event, r: nat) {
    e.ApproveWrite? && e.approval < |s.approvals| && s.approvals[e.approval] == Approval(r, StatusRead)
  }

  /** Rewards are worth something, so that a reversal gives money back. */
  predicate Positive(s: State) {
    && (forall r | 0 <= r < |s.rentals| :: s.rentals[r].reward > 0.0)
    && (forall j | 0 <= j < |s.joins| :: s.joins[j].amount > 0.0)
    && (forall w | 0 <= w < |s.rewards| :: s.rewards[w].amount > 0.0)
  }

  lemma JoinKeepsPositive(s: State, e: Event)
    requires Positive(s) && (e.JoinRead? || e.JoinRecord? || e.JoinAdd?)
    ensures Positive(JoinStep(s, e))
  {}

  lemma ApprovalKeepsPositive(s: State, e: Event)
    requires Positive(s) && (e.ApproveRead? || e.ApproveWrite? || e.ReservePool?)
    ensures Positive(ApprovalStep(s, e))
  {}

  lemma SettlementKeepsPositive(s: State, e: Event)
    requires Positive(s) && IsSettlement(e)
    ensures Positive(SettlementStep(s, e))
  {}

  lemma StepKeepsPositive(s: State, e: Event)
    requires Positive(s)
    ensures Positive(Step(s, e))
  {
    if e.JoinRead? || e.JoinRecord? || e.JoinAdd? {
      JoinKeepsPositive(s, e);
    } else if e.ApproveRead? || e.ApproveWrite? || e.ReservePool? {
      ApprovalKeepsPositive(s, e);
    } else if IsSettlement(e) {
      SettlementKeepsPositive(s, e);
    }
  }

  lemma {:induction false} RunIsPositive(events: seq<Event>)
    ensures Positive(Run(events))
    decreases |events|
  {
    if events != [] {
      RunIsPositive(events[..|events| - 1]);
      StepKeepsPositive(Run(events[..|events| - 1]), events[|events| - 1]);
    }
  }

  /** Only an added join, a reserved pool or an approval can leave an active rental with
      its budget used up; a check never does. */
  lemma UsedUpBy(s: State, e: Event, r: nat)
    requires Positive(s) && UsedUp(Step(s, e), r)
    ensures !IsCheck(e, r)
    ensures !UsedUp(s, r) ==> AddsJoin(s, e, r) || ReservesPool(s, e, r) || Approves(s, e, r)
  {}

  /** Event n used the rental's budget up, or approved it so, and no check of it has come
      since. */
  ghost predicate SinceThen(events: seq<Event>, r: nat, n: nat) {
    && n < |events| && !UsedUp(Run(events[..n]), r) && UsedUp(Run(events[..n + 1]), r)
    && (forall m | n < m < |events| :: !IsCheck(events[m], r))
  }

  lemma StillSince(events: seq<Event>, r: nat, n: nat)
    requires events != [] && SinceThen(events[..|events| - 1], r, n) && !IsCheck(events[|events| - 1], r)
    ensures SinceThen(events, r, n) && Run(events[..|events| - 1][..n]) == Run(events[..n])
    ensures n < |events| - 1 && events[..|events| - 1][n] == events[n]
  {
    var most := events[..|events| - 1];
    assert most[..n] == events[..n] && most[..n + 1] == events[..n + 1];
    assert forall m | n < m < |most| :: events[m] == most[m];
  }

  /** In every reachable state an active rental with its budget used up has had a join
      added, a pool reserved or an approval written since its last check: that event used
      the budget up. */
  lemma {:induction false} UsedUpSince(events: seq<Event>, r: nat) returns (n: nat)
    requires UsedUp(Run(events), r)
    ensures SinceThen(events, r, n)
    ensures var s, e := Run(events[..n]), events[n]; AddsJoin(s, e, r) || ReservesPool(s, e, r) || Approves(s, e, r)
    decreases |events|
  {
    var last := |events| - 1;
    var s := Run(events[..last]);
    RunIsPositive(events[..last]);
    UsedUpBy(s, events[last], r);
    if UsedUp(s, r) {
      n := UsedUpSince(events[..last], r);
      StillSince(events, r, n);
    } else {
      n := last;
      assert events[..n + 1] == events;
    }
  }

  // ------------------------------------------------------------- with joins checked

  /** Nothing has been spent for the rental, and nothing is on its way. */
  predicate NotBegun(s: State, r: nat)
    requires r < |s.rentals|
  {
    && s.rentals[r].status != Active && s.rentals[r].spent == 0.0 && s.rentals[r].budget > 0.0
    && (forall j | 0 <= j < |s.joins| :: s.joins[j].rental != r)
    && (forall w | 0 <= w < |s.rewards| :: s.rewards[w].rental != r)
    && (forall a | 0 <= a < |s.approvals| && s.approvals[a].rental == r :: s.approvals[a].stage == StatusRead)
  }

  predicate Known(s: State) {
    && (forall j | 0 <= j < |s.joins| :: s.joins[j].rental < |s.rentals|)
    && (forall w | 0 <= w < |s.rewards| :: s.rewards[w].rental < |s.rentals|)
    && (forall a | 0 <= a < |s.approvals| :: s.approvals[a].rental < |s.rentals|)
  }

  predicate Begun(s: State, r: nat)
    requires r < |s.rentals|
  {
    && (s.rentals[r].status == PendingReview ==> s.rentals[r].approvals == 0)
    && (s.rentals[r].approvals == 0 ==> NotBegun(s, r))
  }

  /** Before its first approval nothing happens to a rental. */
  predicate Ordered(s: State) {
    Known(s) && forall r: nat | r < |s.rentals| :: Begun(s, r)
  }

  lemma JoinKeepsOrdered(s: State, e: Event)
    requires Ordered(s) && (e.JoinRead? || e.JoinRecord? || e.JoinAdd?)
    ensures Ordered(JoinStep(s, e))
  {
    var t := JoinStep(s, e);
    forall r: nat | r < |t.rentals|
      ensures Begun(t, r)
    {
      assert Begun(s, r);
    }
  }

  lemma ApprovalKeepsOrdered(s: State, e: Event)
    requires Ordered(s) && (e.ApproveRead? || e.ApproveWrite? || e.ReservePool?)
    ensures Ordered(ApprovalStep(s, e))
  {
    var t := ApprovalStep(s, e);
    forall r: nat | r < |t.rentals|
      ensures Begun(t, r)
    {
      assert Begun(s, r);
    }
  }

  lemma SettlementKeepsOrdered(s: State, e: Event)
    requires Ordered(s) && IsSettlement(e)
    ensures Ordered(SettlementStep(s, e))
  {
    var t := SettlementStep(s, e);
    forall r: nat | r < |t.rentals|
      ensures Begun(t, r)
    {
      assert Begun(s, r);
    }
  }

  lemma OtherKeepsOrdered(s: State, e: Event)
    requires Ordered(s) && (e.Propose? || e.RejectRental? || e.MarkDone? || e.Reverse?)
    ensures Ordered(Step(s, e))
  {
    var t := Step(s, e);
    forall r: nat | r < |t.rentals|
      ensures Begun(t, r)
    {
      assert r < |s.rentals| ==> Begun(s, r);
    }
  }

  lemma {:induction false} RunIsOrdered(events: seq<Event>)
    ensures Ordered(Run(events))
    decreases |events|
  {
    if events != [] {
      var s, e := Run(events[..|events| - 1]), events[|events| - 1];
      RunIsOrdered(events[..|events| - 1]);
      if e.JoinRead? || e.JoinRecord? || e.JoinAdd? {
        JoinKeepsOrdered(s, e);
      } else if e.ApproveRead? || e.ApproveWrite? || e.ReservePool? {
        ApprovalKeepsOrdered(s, e);
      } else if IsSettlement(e) {
        SettlementKeepsOrdered(s, e);
      } else {
        OtherKeepsOrdered(s, e);
      }
    }
  }

  /** Every join that is added is followed by a check of its rental, as the handler does. */
  ghost predicate JoinsAreChecked(events: seq<Event>, r: nat) {
    forall n | 0 <= n < |events| && AddsJoin(Run(events[..n]), events[n], r) ::
      exists m :: n < m < |events| && IsCheck(events[m], r)
  }

  /** So when joins are checked and approvals write over a status still pending review,
      only a pool reservation can leave an active rental with its budget used up. */
  lemma {:induction false} OnlyPoolUsesUp(events: seq<Event>, r: nat) returns (n: nat)
    requires UsedUp(Run(events), r) && JoinsAreChecked(events, r) && SoleApprovals(events)
    ensures SinceThen(events, r, n) && ReservesPool(Run(events[..n]), events[n], r)
  {
    n := UsedUpSince(events, r);
    var s := Run(events[..n]);
    assert SoleApproval(s, events[n]);
    if Approves(s, events[n], r) {
      RunIsOrdered(events[..n]);
      assert Begun(s, r);
      assert events[..n + 1][..n] == events[..n] && events[..n + 1][n] == events[n];
      SoleApprovalHasMoney(s, events[n], r);
    }
  }

  lemma SoleApprovalHasMoney(s: State, e: Event, r: nat)
    requires Ordered(s) && Approves(s, e, r) && SoleApproval(s, e)
    ensures !UsedUp(Step(s, e), r)
  {
    if r < |s.rentals| {
      assert Begun(s, r);
    }
  }

  /** Which happens: with all of the budget for the bot owners the pool leaves the rental
      active with nothing to spend. It takes no join at any time, so that no join's check
      comes; only the scan for end dates, thirty days later, finishes it. */
  lemma PoolUsesItUp(budget: real, reward: real, now: int) returns (events: seq<Event>)
    requires budget > 0.0 && reward > 0.0
    ensures SoleApprovals(events) && JoinsAreChecked(events, 0) && UsedUp(Run(events), 0)
    ensures forall at :: !Run(events).rentals[0].IsActive(at)
  {
    events := [Propose(7, budget, reward, 100.0), ApproveRead(0), ApproveWrite(0, now), ReservePool(0, 1)];
    var x := Rental(7, PendingReview, reward, budget, 100.0, 0.0, 0, None, 0.0, 0, 0);
    var y := x.(status := Active, endAt := Some(now + RENTAL_DURATION), approvals := 1);
    var z := y.(spent := budget, poolReserved := budget);
    assert y.OwnerPool() == budget && y.OwnerPool() / 1 as real == budget;
    RunOfSteps(events,
               [EMPTY, State([x], [], [], [], [], false), State([x], [], [], [Approval(0, StatusRead)], [], false),
                State([y], [], [], [Approval(0, StatusWritten)], [], false),
                State([z], [], [], [Approval(0, PoolHandled)], [], false)]);
    assert events[..4] == events;
  }

  // ------------------------------------------------------------------------- rejected

  /** An approval has read the rental as pending review and not written yet. */
  predicate ApprovalUnderWay(s: State, r: nat) {
    exists a :: 0 <= a < |s.approvals| && s.approvals[a] == Approval(r, StatusRead)
  }

  predicate IsRejected(s: State, r: nat) {
    r < |s.rentals| && s.rentals[r].status == RentalRejected
  }

  lemma RejectionStays(s: State, e: Event, r: nat)
    requires IsRejected(s, r) && !ApprovalUnderWay(s, r)
    ensures IsRejected(Step(s, e), r) && !ApprovalUnderWay(Step(s, e), r)
  {
    var t := Step(s, e);
    if e.ApproveWrite? && e.approval < |s.approvals| {
      assert s.approvals[e.approval] != Approval(r, StatusRead);
    }
    forall a | 0 <= a < |t.approvals|
      ensures t.approvals[a] != Approval(r, StatusRead)
    {
      if a < |s.approvals| {
        assert s.approvals[a] != Approval(r, StatusRead);
      }
    }
  }

  lemma {:induction false} RejectedRun(s: State, events: seq<Event>, r: nat)
    requires IsRejected(s, r) && !ApprovalUnderWay(s, r)
    ensures IsRejected(RunFrom(s, events), r) && !ApprovalUnderWay(RunFrom(s, events), r)
    decreases |events|
  {
    if events != [] {
      RejectedRun(s, events[..|events| - 1], r);
      RejectionStays(RunFrom(s, events[..|events| - 1]), events[|events| - 1], r);
    }
  }

  /** A rejection closes the rental at once, and for good, whatever follows, if and only
      if no approval of it is between its read and its write. */
  lemma {:induction false} RejectedForGoodIff(s: State, r: nat)
    requires r < |s.rentals|
    ensures var t := Step(s, RejectRental(r));
      && IsRejected(t, r) && t == s.(rentals := t.rentals) && |t.rentals| == |s.rentals|
      && (forall q | 0 <= q < |s.rentals| && q != r :: t.rentals[q] == s.rentals[q])
      && ((forall events :: IsRejected(RunFrom(t, events), r)) <==> !ApprovalUnderWay(s, r))
  {
    var t := Step(s, RejectRental(r));
    if ApprovalUnderWay(s, r) {
      var a :| 0 <= a < |s.approvals| && s.approvals[a] == Approval(r, StatusRead);
      var again := [ApproveWrite(a, 0)];
      assert again[..0] == [] && RunFrom(t, again) == Step(t, again[0]);
      assert !IsRejected(RunFrom(t, again), r);
    } else {
      forall events
        ensures IsRejected(RunFrom(t, events), r)
      {
        RejectedRun(t, events, r);
      }
    }
  }

  // ------------------------------------------------------------------------- joining

  /** A join is admitted exactly while the rental is active, has money left and has not
      passed its end, at the price the rental pays then. */
  lemma JoinIsAdmittedIff(s: State, r: nat, user: int, now: int)
    ensures var t := Step(s, JoinRead(r, user, now));
      && (|t.joins| == |s.joins| + 1 <==>
            r < |s.rentals| &&
            var x := s.rentals[r];
            x.status == Active && x.spent < x.budget && (x.endAt.Some? ==> now <= x.endAt.value))
      && (|t.joins| != |s.joins| + 1 ==> t == s)
      && (|t.joins| == |s.joins| + 1 ==>
            r < |s.rentals| && t == s.(joins := s.joins + [Join(r, user, s.rentals[r].reward, Checked)]))
  {}

  /** It is recorded exactly when the user has no reward for the rental yet; then, and only
      then, it is added to what the rental has spent, once. */
  lemma JoinIsAddedOnceIff(s: State, j: nat, now: int)
    requires j < |s.joins| && s.joins[j].stage == Checked && s.joins[j].rental < |s.rentals|
    ensures var x, t := s.joins[j], Step(s, JoinRecord(j, now));
      var u := Step(t, JoinAdd(j)); var v := Step(u, JoinAdd(j));
      && (|t.rewards| == |s.rewards| + 1 <==>
            forall w | 0 <= w < |s.rewards| :: !(s.rewards[w].rental == x.rental && s.rewards[w].user == x.user))
      && t.rentals == s.rentals && v == u && |u.rentals| == |s.rentals|
      && u.rentals[x.rental].spent - s.rentals[x.rental].spent ==
           (if |t.rewards| == |s.rewards| + 1 then x.amount else 0.0)
      && u.rentals[x.rental].joins - s.rentals[x.rental].joins ==
           (if |t.rewards| == |s.rewards| + 1 then 1 else 0)
      && forall q | 0 <= q < |s.rentals| && q != x.rental :: u.rentals[q] == s.rentals[q]
  {
    var x := s.joins[j];
    assert HasReward(s.rewards, x.rental, x.user) <==>
      exists w :: 0 <= w < |s.rewards| && s.rewards[w].rental == x.rental && s.rewards[w].user == x.user;
  }

  // ------------------------------------------------------------------ a day's wait

  /** A join's reward is the price it was checked with, and waits for a day. */
  lemma FirstRecordWaits(s: State, e: Event)
    requires e.JoinRecord? && |Step(s, e).rewards| > |s.rewards|
    ensures var x, w := s.joins[e.join], Step(s, e).rewards[|s.rewards|];
      && |Step(s, e).rewards| == |s.rewards| + 1 && e.join < |s.joins| && x.stage == Checked
      && w.rental == x.rental && w.user == x.user && w.amount == x.amount && w.status == RewardPending
      && w.settleAt == e.now + 24 * 3600 && w.credited == 0
  {}

  /** No reward is paid by scans less than a day after it was recorded, whatever else
      happens. */
  lemma {:induction false} NotPaidWithinADay(events: seq<Event>, n: nat, i: nat)
    requires n < |events| && events[n].JoinRecord?
    requires i == |Run(events[..n]).rewards| < |Run(events[..n + 1]).rewards|
    requires forall e | e in events && e.ScanDue? :: e.now < events[n].now + 24 * 3600
    ensures i < |Run(events).rewards| && Run(events).rewards[i].credited == 0
  {
    assert events[..n + 1][..n] == events[..n] && events[..n + 1][n] == events[n];
    FirstRecordWaits(Run(events[..n]), events[n]);
    TermKept(events, n + 1, i);
    NotYetDue(events, i, events[n].now + 24 * 3600 - 1);
  }

  lemma {:induction false} TermKept(events: seq<Event>, n: nat, i: nat)
    requires n <= |events| && i < |Run(events[..n]).rewards|
    ensures i < |Run(events).rewards| && Run(events).rewards[i].settleAt == Run(events[..n]).rewards[i].settleAt
    decreases |events|
  {
    if n < |events| {
      assert events[..|events| - 1][..n] == events[..n];
      TermKept(events[..|events| - 1], n, i);
      TermStays(Run(events[..|events| - 1]), events[|events| - 1], i);
    } else {
      assert events[..n] == events;
    }
  }
}
