/** The owner pool reserved late: for which budgets the tighter overspend bound still
    holds, and the run that breaks it for all others. */
module EscrowLatePool {
  import opened Text
  import opened Totals
  import opened Escrow
  import opened EscrowPayments
  import opened EscrowFinish
  import opened EscrowBounds

  // --------------------------------------------------------- multiples of the reward

  ghost predicate IsMultiple(v: real, reward: real) {
    exists a: nat, b: nat :: v == Times(a, reward) - Times(b, reward)
  }

  lemma MultipleBy(v: real, reward: real, a: nat, b: nat)
    requires v == Times(a, reward) - Times(b, reward)
    ensures IsMultiple(v, reward)
  {}

  lemma MultipleShifts(v: real, reward: real)
    requires IsMultiple(v, reward)
    ensures IsMultiple(v + reward, reward) && IsMultiple(v - reward, reward)
  {
    var a: nat, b: nat :| v == Times(a, reward) - Times(b, reward);
    assert v + reward == Times(a + 1, reward) - Times(b, reward);
    assert v - reward == Times(a, reward) - Times(b + 1, reward);
  }

  lemma {:induction false} TimesSplits(a: nat, b: nat, x: real)
    ensures Times(a + b, x) == Times(a, x) + Times(b, x)
    decreases b
  {
    if b > 0 {
      TimesSplits(a, b - 1, x);
      assert a + b - 1 == a + (b - 1);
    }
  }

  /** A multiple below the budget is at most the largest one. */
  lemma LargestMultiple(v: real, reward: real, m: nat, budget: real)
    requires reward > 0.0 && IsMultiple(v, reward) && v < budget <= Times(m + 1, reward)
    ensures v <= Times(m, reward)
  {
    var a: nat, b: nat :| v == Times(a, reward) - Times(b, reward);
    if a >= b {
      TimesSplits(b, a - b, reward);
      assert v == Times(a - b, reward);
      if a - b > m {
        TimesMonotone(m + 1, a - b, reward);
      } else {
        TimesMonotone(a - b, m, reward);
      }
    } else {
      TimesMonotone(a, b, reward);
      TimesMonotone(0, m, reward);
    }
  }

  // ------------------------------------------------------------- one approval, one pool

  function InStage(a: Approval, r: nat, handled: bool): nat {
    if a.rental == r && (a.stage == StatusWritten || (handled && a.stage == PoolHandled)) then 1 else 0
  }

  /** Approvals of r that have written their status; those with the pool handled too,
      or not. */
  function Written(approvals: seq<Approval>, r: nat, handled: bool): nat {
    if approvals == [] then 0
    else Written(approvals[..|approvals| - 1], r, handled) + InStage(approvals[|approvals| - 1], r, handled)
  }

  lemma WrittenAppended(approvals: seq<Approval>, a: Approval, r: nat, handled: bool)
    ensures Written(approvals + [a], r, handled) == Written(approvals, r, handled) + InStage(a, r, handled)
  {
    assert (approvals + [a])[..|approvals|] == approvals;
  }

  lemma {:induction false} WrittenReplaced(approvals: seq<Approval>, i: nat, a: Approval, r: nat, handled: bool)
    requires i < |approvals|
    ensures Written(approvals[i := a], r, handled) ==
      Written(approvals, r, handled) - InStage(approvals[i], r, handled) + InStage(a, r, handled)
    decreases |approvals|
  {
    var n := |approvals| - 1;
    if i < n {
      WrittenReplaced(approvals[..n], i, a, r, handled);
      assert approvals[i := a][..n] == approvals[..n][i := a];
    } else {
      assert approvals[i := a][..n] == approvals[..n];
    }
  }

  lemma {:induction false} WrittenMeans(approvals: seq<Approval>, r: nat)
    ensures Written(approvals, r, false) <= Written(approvals, r, true)
    ensures Written(approvals, r, false) == 0 ==>
      forall a | a in approvals && a.rental == r :: a.stage != StatusWritten
    ensures (forall a | a in approvals :: a.rental != r) ==> Written(approvals, r, true) == 0
    decreases |approvals|
  {
    if approvals != [] {
      var n := |approvals| - 1;
      WrittenMeans(approvals[..n], r);
      assert approvals == approvals[..n] + [approvals[n]];
      assert approvals[n] in approvals;
    }
  }

  /** One approval at most has written; while its pool is outstanding nothing but
      rewards is in Spent. */
  ghost predicate Paced(x: Rental, approvals: seq<Approval>, r: nat) {
    && ApprovedOnce(x) && Written(approvals, r, true) == x.approvals
    && (x.approvals == 0 || Written(approvals, r, false) > 0 ==> x.poolReserved == 0.0)
    && IsMultiple(x.spent - x.poolReserved, x.reward)
  }

  ghost predicate Orderly(s: State, r: nat)
    requires r < |s.rentals|
  {
    Paced(s.rentals[r], s.approvals, r) && Priced(s, r)
  }

  lemma ReadKeepsPace(s: State, e: Event, r: nat)
    requires r < |s.rentals| && Paced(s.rentals[r], s.approvals, r) && e.ApproveRead?
    ensures var t := ApprovalStep(s, e); Paced(t.rentals[r], t.approvals, r)
  {
    var t := ApprovalStep(s, e);
    if t != s {
      WrittenAppended(s.approvals, t.approvals[|s.approvals|], r, true);
      WrittenAppended(s.approvals, t.approvals[|s.approvals|], r, false);
    }
  }

  lemma WriteKeepsPace(s: State, e: Event, r: nat)
    requires r < |s.rentals| && Paced(s.rentals[r], s.approvals, r) && SoleApproval(s, e) && e.ApproveWrite?
    ensures var t := ApprovalStep(s, e); Paced(t.rentals[r], t.approvals, r)
  {
    var t := ApprovalStep(s, e);
    if t != s {
      WrittenReplaced(s.approvals, e.approval, t.approvals[e.approval], r, true);
      WrittenReplaced(s.approvals, e.approval, t.approvals[e.approval], r, false);
    }
  }

  lemma PoolMovesBoth(s: State, e: Event, r: nat)
    requires r < |s.rentals| && e.ReservePool?
    ensures var x, y := s.rentals[r], ApprovalStep(s, e).rentals[r];
      && y.spent - y.poolReserved == x.spent - x.poolReserved
      && y == x.(spent := y.spent, poolReserved := y.poolReserved)
      && (y != x ==> e.approval < |s.approvals| && s.approvals[e.approval] == Approval(r, StatusWritten))
  {}

  lemma PoolKeepsPace(s: State, e: Event, r: nat)
    requires r < |s.rentals| && Paced(s.rentals[r], s.approvals, r) && e.ReservePool?
    ensures var t := ApprovalStep(s, e); Paced(t.rentals[r], t.approvals, r)
  {
    var t := ApprovalStep(s, e);
    if t != s {
      PoolMovesBoth(s, e, r);
      WrittenMeans(t.approvals, r);
      WrittenMeans(s.approvals, r);
      WrittenReplaced(s.approvals, e.approval, t.approvals[e.approval], r, true);
      WrittenReplaced(s.approvals, e.approval, t.approvals[e.approval], r, false);
    }
  }

  lemma AddMovesReward(s: State, e: Event, r: nat)
    requires r < |s.rentals| && Priced(s, r) && e.JoinAdd?
    ensures var x, t := s.rentals[r], JoinStep(s, e); var y := t.rentals[r];
      && t.approvals == s.approvals
      && (y == x || y == x.(spent := x.spent + x.reward, joins := y.joins))
  {
    if e.join < |s.joins| {
      assert s.joins[e.join] in s.joins;
    }
  }

  lemma ReverseMovesReward(s: State, e: Event, r: nat)
    requires r < |s.rentals| && Priced(s, r) && e.Reverse?
    ensures var x, t := s.rentals[r], Step(s, e); var y := t.rentals[r];
      && t.approvals == s.approvals
      && (y == x || y == x.(spent := x.spent - x.reward, joins := y.joins))
  {
    if e.row < |s.rewards| {
      assert s.rewards[e.row] in s.rewards;
    }
  }

  lemma ShiftKeepsPace(x: Rental, y: Rental, approvals: seq<Approval>, r: nat)
    requires Paced(x, approvals, r)
    requires y == x.(spent := y.spent, joins := y.joins)
    requires y.spent == x.spent || y.spent == x.spent + x.reward || y.spent == x.spent - x.reward
    ensures Paced(y, approvals, r)
  {
    MultipleShifts(x.spent - x.poolReserved, x.reward);
    assert x.spent + x.reward - x.poolReserved == x.spent - x.poolReserved + x.reward;
    assert x.spent - x.reward - x.poolReserved == x.spent - x.poolReserved - x.reward;
  }

  lemma StepKeepsPace(s: State, e: Event, r: nat)
    requires r < |s.rentals| && Orderly(s, r) && SoleApproval(s, e)
    ensures var t := Step(s, e); r < |t.rentals| && Paced(t.rentals[r], t.approvals, r)
  {
    if e.ApproveRead? {
      ReadKeepsPace(s, e, r);
    } else if e.ApproveWrite? {
      WriteKeepsPace(s, e, r);
    } else if e.ReservePool? {
      PoolKeepsPace(s, e, r);
    } else if e.JoinAdd? {
      AddMovesReward(s, e, r);
      ShiftKeepsPace(s.rentals[r], JoinStep(s, e).rentals[r], s.approvals, r);
    } else if e.Reverse? {
      ReverseMovesReward(s, e, r);
      ShiftKeepsPace(s.rentals[r], Step(s, e).rentals[r], s.approvals, r);
    } else {
      RestMovesNothing(s, e, r);
    }
  }

  lemma NewIsOrderly(s: State, e: Event)
    requires InRange(s) && e.Propose? && |Step(s, e).rentals| == |s.rentals| + 1
    ensures Orderly(Step(s, e), |s.rentals|)
  {
    WrittenMeans(s.approvals, |s.rentals|);
    MultipleBy(0.0, e.reward, 0, 0);
  }

  lemma StepKeepsOrderly(s: State, e: Event, r: nat)
    requires InRange(s) && SoleApproval(s, e) && r < |Step(s, e).rentals|
    requires r < |s.rentals| ==> Orderly(s, r)
    ensures Orderly(Step(s, e), r)
  {
    if r >= |s.rentals| {
      NewIsOrderly(s, e);
    } else {
      StepKeepsPace(s, e, r);
      StepKeepsPrices(s, e, r);
    }
  }

  lemma {:induction false} RunIsOrderly(events: seq<Event>, r: nat)
    requires SoleApprovals(events) && r < |Run(events).rentals|
    ensures Orderly(Run(events), r)
    decreases |events|
  {
    if events != [] {
      var n := |events| - 1;
      SoleApprovalsPrefix(events, n);
      RunInRange(events[..n]);
      if r < |Run(events[..n]).rentals| {
        RunIsOrderly(events[..n], r);
      }
      assert SoleApproval(Run(events[..n]), events[n]);
      StepKeepsOrderly(Run(events[..n]), events[n], r);
    }
  }

  // ----------------------------------------------------------- when the pool always fits

  /** m*reward is the largest multiple of the reward below the budget. */
  predicate Largest(m: nat, reward: real, budget: real) {
    Times(m, reward) < budget <= Times(m + 1, reward)
  }

  lemma FittingPoolHasRoom(s: State, e: Event, r: nat, m: nat)
    requires r < |s.rentals| && Orderly(s, r) && Terms(s.rentals[r])
    requires Largest(m, s.rentals[r].reward, s.rentals[r].budget)
    requires Times(m, s.rentals[r].reward) + s.rentals[r].OwnerPool() < s.rentals[r].budget
    ensures PoolHasRoom(s, e, r)
  {
    var x := s.rentals[r];
    WrittenMeans(s.approvals, r);
    if e.JoinRead? && e.rental == r && x.spent < x.budget && Written(s.approvals, r, false) > 0 {
      LargestMultiple(x.spent - x.poolReserved, x.reward, m, x.budget);
    }
  }

  predicate SameTerms(x: Rental, y: Rental) {
    x.budget == y.budget && x.reward == y.reward && x.ownerPercent == y.ownerPercent
  }

  lemma {:induction false} TermsNeverChange(events: seq<Event>, i: nat, r: nat)
    requires i <= |events| && r < |Run(events[..i]).rentals|
    ensures r < |Run(events).rentals| && SameTerms(Run(events[..i]).rentals[r], Run(events).rentals[r])
    decreases |events|
  {
    if i < |events| {
      var n := |events| - 1;
      assert events[..n][..i] == events[..i];
      TermsNeverChange(events[..n], i, r);
      var s := Run(events[..n]);
      assert Run(events) == Step(s, events[n]);
      StepKeepsTerms(s, events[n], r);
    } else {
      assert events[..i] == events;
    }
  }

  lemma {:induction false} FittingPoolAlwaysHasRoom(events: seq<Event>, r: nat, m: nat)
    requires SoleApprovals(events) && r < |Run(events).rentals| && Terms(Run(events).rentals[r])
    requires var x := Run(events).rentals[r];
      Largest(m, x.reward, x.budget) && Times(m, x.reward) + x.OwnerPool() < x.budget
    ensures PoolAlwaysHasRoom(events, r)
  {
    forall i | 0 <= i < |events|
      ensures PoolHasRoom(Run(events[..i]), events[i], r)
    {
      if r < |Run(events[..i]).rentals| {
        SoleApprovalsPrefix(events, i);
        RunIsOrderly(events[..i], r);
        TermsNeverChange(events, i, r);
        SamePool(Run(events[..i]).rentals[r], Run(events).rentals[r]);
        FittingPoolHasRoom(Run(events[..i]), events[i], r, m);
      }
    }
  }

  // ------------------------------------------------------------------ a burst of joins

  /** One active rental whose pool is outstanding; user numbers are join numbers. */
  predicate Outstanding(s: State, x: Rental) {
    && |s.rentals| == 1 && s.rentals[0] == x.(spent := s.rentals[0].spent, joins := s.rentals[0].joins)
    && x.status == Active && x.endAt.Some? && x.endAt.value >= 0
    && s.approvals == [Approval(0, StatusWritten)]
    && forall w | w in s.rewards :: w.user < |s.joins|
  }

  predicate OnlyJoins(events: seq<Event>) {
    forall i | 0 <= i < |events| :: events[i].JoinRead? || events[i].JoinRecord? || events[i].JoinAdd?
  }

  predicate NoApproval(events: seq<Event>) {
    forall i | 0 <= i < |events| :: !events[i].ApproveWrite?
  }

  /** At most k joins under way at any time of this stretch. */
  predicate Peak(s: State, events: seq<Event>, k: nat) {
    forall i | 0 <= i <= |events| :: ComingCount(RunFrom(s, events[..i]).joins, 0) <= k
  }

  lemma {:induction false} PeakJoins(s: State, a: seq<Event>, b: seq<Event>, k: nat)
    requires Peak(s, a, k) && Peak(RunFrom(s, a), b, k)
    ensures Peak(s, a + b, k)
  {
    forall i | 0 <= i <= |a + b|
      ensures ComingCount(RunFrom(s, (a + b)[..i]).joins, 0) <= k
    {
      if i <= |a| {
        assert (a + b)[..i] == a[..i];
      } else {
        assert (a + b)[..i] == a + b[..i - |a|];
        RunSplits(s, a, b[..i - |a|]);
      }
    }
  }

  lemma PeakOfOne(s: State, e: Event, k: nat)
    requires ComingCount(s.joins, 0) <= k && ComingCount(Step(s, e).joins, 0) <= k
    ensures Peak(s, [e], k)
  {
    assert [e][..0] == [] && [e][..1] == [e];
  }

  function IsComing(j: Join, r: nat): nat {
    if j.rental == r && (j.stage == Checked || j.stage == Recorded) then 1 else 0
  }

  lemma ComingAppended(joins: seq<Join>, j: Join, r: nat)
    ensures ComingCount(joins + [j], r) == ComingCount(joins, r) + IsComing(j, r)
  {
    assert (joins + [j])[..|joins|] == joins;
  }

  lemma {:induction false} ComingReplaced(joins: seq<Join>, i: nat, j: Join, r: nat)
    requires i < |joins|
    ensures ComingCount(joins[i := j], r) == ComingCount(joins, r) - IsComing(joins[i], r) + IsComing(j, r)
    decreases |joins|
  {
    var n := |joins| - 1;
    if i < n {
      ComingReplaced(joins[..n], i, j, r);
      assert joins[i := j][..n] == joins[..n][i := j];
    } else {
      assert joins[i := j][..n] == joins[..n];
    }
  }

  lemma CheckJoin(s: State, x: Rental)
    requires Outstanding(s, x) && s.rentals[0].spent < x.budget
    ensures var t := Step(s, JoinRead(0, |s.joins|, 0));
      && t == s.(joins := s.joins + [Join(0, |s.joins|, x.reward, Checked)]) && Outstanding(t, x)
      && ComingCount(t.joins, 0) == ComingCount(s.joins, 0) + 1
  {
    ComingAppended(s.joins, Join(0, |s.joins|, x.reward, Checked), 0);
  }

  /** The join checked as number n goes through: recorded, then added. */
  lemma RecordJoin(s: State, x: Rental, n: nat)
    requires Outstanding(s, x) && n < |s.joins| && s.joins[n] == Join(0, n, x.reward, Checked)
    requires forall w | w in s.rewards :: w.user != n
    ensures var t := Step(s, JoinRecord(n, 0));
      && Outstanding(t, x) && t.rentals == s.rentals
      && t.joins == s.joins[n := Join(0, n, x.reward, Recorded)]
      && (forall w | w in t.rewards :: w in s.rewards || w.user == n)
      && ComingCount(t.joins, 0) == ComingCount(s.joins, 0)
  {
    ComingReplaced(s.joins, n, Join(0, n, x.reward, Recorded), 0);
  }

  lemma AddJoin(s: State, x: Rental, n: nat)
    requires Outstanding(s, x) && n < |s.joins| && s.joins[n] == Join(0, n, x.reward, Recorded)
    ensures var t := Step(s, JoinAdd(n));
      && Outstanding(t, x) && t.rentals[0].spent == s.rentals[0].spent + x.reward
      && t.joins == s.joins[n := Join(0, n, x.reward, Added)] && t.rewards == s.rewards
      && ComingCount(t.joins, 0) == ComingCount(s.joins, 0) - 1
  {
    ComingReplaced(s.joins, n, Join(0, n, x.reward, Added), 0);
  }

  /** From s, k further joins have gone through and left t. */
  predicate WentThrough(s: State, t: State, x: Rental, k: nat)
    requires |s.rentals| == 1
  {
    && Outstanding(t, x) && t.rentals[0].spent == s.rentals[0].spent + Times(k, x.reward)
    && s.joins <= t.joins && ComingCount(t.joins, 0) == ComingCount(s.joins, 0)
    && forall w | w in t.rewards :: w in s.rewards || w.user >= |s.joins|
  }

  /** k joins are checked before any is added: each passes the same check. */
  lemma {:induction false} Burst(s: State, x: Rental, k: nat, peak: nat) returns (events: seq<Event>)
    requires Outstanding(s, x) && s.rentals[0].spent < x.budget && ComingCount(s.joins, 0) + k <= peak
    ensures OnlyJoins(events) && Peak(s, events, peak)
    ensures WentThrough(s, RunFrom(s, events), x, k)
    decreases k
  {
    if k == 0 {
      events := [];
    } else {
      var n := |s.joins|;
      CheckJoin(s, x);
      var inner := Burst(Step(s, JoinRead(0, n, 0)), x, k - 1, peak);
      OneMoreAround(s, RunFrom(Step(s, JoinRead(0, n, 0)), inner), x, k);
      BurstFrom(s, JoinRead(0, n, 0), inner, JoinRecord(n, 0), JoinAdd(n), peak);
      events := [JoinRead(0, n, 0)] + (inner + ([JoinRecord(n, 0)] + [JoinAdd(n)]));
    }
  }

  /** One join is checked, k - 1 go through, and then it goes through itself. */
  lemma OneMoreAround(s: State, t: State, x: Rental, k: nat)
    requires k >= 1 && Outstanding(s, x) && s.rentals[0].spent < x.budget
    requires Step(s, JoinRead(0, |s.joins|, 0)) == s.(joins := s.joins + [Join(0, |s.joins|, x.reward, Checked)])
    requires WentThrough(Step(s, JoinRead(0, |s.joins|, 0)), t, x, k - 1)
    ensures var n := |s.joins|; var u := Step(t, JoinRecord(n, 0)); var v := Step(u, JoinAdd(n));
      && WentThrough(s, v, x, k)
      && ComingCount(u.joins, 0) == ComingCount(s.joins, 0) + 1
  {
    ComingAppended(s.joins, Join(0, |s.joins|, x.reward, Checked), 0);
    LastJoinAdds(s, t, x, |s.joins|);
  }

  /** The join checked first is added last. */
  lemma LastJoinAdds(s: State, t: State, x: Rental, n: nat)
    requires n == |s.joins| && Outstanding(s, x) && Outstanding(t, x)
    requires s.joins + [Join(0, n, x.reward, Checked)] <= t.joins
    requires forall w | w in t.rewards :: w in s.rewards || w.user > n
    ensures var u := Step(t, JoinRecord(n, 0)); var v := Step(u, JoinAdd(n));
      && Outstanding(v, x) && v.rentals[0].spent == t.rentals[0].spent + x.reward
      && s.joins <= v.joins && (forall w | w in v.rewards :: w in s.rewards || w.user >= n)
      && ComingCount(u.joins, 0) == ComingCount(t.joins, 0)
      && ComingCount(v.joins, 0) == ComingCount(t.joins, 0) - 1
  {
    assert t.joins[n] == (s.joins + [Join(0, n, x.reward, Checked)])[n];
    RecordJoin(t, x, n);
    AddJoin(Step(t, JoinRecord(n, 0)), x, n);
  }

  lemma {:induction false} BurstFrom(s: State, first: Event, inner: seq<Event>, record: Event, add: Event, peak: nat)
    requires first.JoinRead? && OnlyJoins(inner) && record.JoinRecord? && add.JoinAdd?
    requires ComingCount(s.joins, 0) <= peak && Peak(Step(s, first), inner, peak)
    requires ComingCount(Step(RunFrom(Step(s, first), inner), record).joins, 0) <= peak
    requires ComingCount(Step(Step(RunFrom(Step(s, first), inner), record), add).joins, 0) <= peak
    ensures var events := [first] + (inner + ([record] + [add]));
      && RunFrom(s, events) == Step(Step(RunFrom(Step(s, first), inner), record), add)
      && Peak(s, events, peak) && OnlyJoins(events)
  {
    var s1 := Step(s, first);
    var s2 := RunFrom(s1, inner);
    assert inner[..0] == [] && inner[..|inner|] == inner;
    RunAfter(s, first, inner + ([record] + [add]));
    RunSplits(s1, inner, [record] + [add]);
    RunAfter(s2, record, [add]);
    RunOne(Step(s2, record), add);
    RunOne(s2, record);
    RunOne(s, first);
    PeakOfOne(s, first, peak);
    PeakOfOne(s2, record, peak);
    PeakOfOne(Step(s2, record), add, peak);
    PeakJoins(s2, [record], [add], peak);
    PeakJoins(s1, inner, [record] + [add], peak);
    PeakJoins(s, [first], inner + ([record] + [add]), peak);
  }

  /** m joins one after the other. */
  lemma {:induction false} OneByOne(s: State, x: Rental, m: nat, peak: nat) returns (events: seq<Event>)
    requires Outstanding(s, x) && ComingCount(s.joins, 0) + 1 <= peak && x.reward > 0.0
    requires s.rentals[0].spent == 0.0 && Times(m, x.reward) < x.budget
    ensures OnlyJoins(events) && Peak(s, events, peak)
    ensures var t := RunFrom(s, events);
      && Outstanding(t, x) && t.rentals[0].spent == Times(m, x.reward)
      && ComingCount(t.joins, 0) == ComingCount(s.joins, 0)
    decreases m
  {
    if m == 0 {
      events := [];
    } else {
      TimesMonotone(m - 1, m, x.reward);
      var before := OneByOne(s, x, m - 1, peak);
      var t := RunFrom(s, before);
      var one := Burst(t, x, 1, peak);
      assert Times(1, x.reward) == x.reward;
      RunSplits(s, before, one);
      PeakJoins(s, before, one, peak);
      events := before + one;
    }
  }

  // ------------------------------------------------------------------------- main result

  function Opening(budget: real, reward: real, percent: real): seq<Event> {
    [Propose(7, budget, reward, percent), ApproveRead(0), ApproveWrite(0, 0)]
  }

  function OpenRental(budget: real, reward: real, percent: real): Rental {
    Rental(7, Active, reward, budget, percent, 0.0, 0, Some(RENTAL_DURATION), 0.0, 1, 0)
  }

  lemma OpeningRuns(budget: real, reward: real, percent: real)
    requires budget > 0.0 && reward > 0.0
    ensures var es, x := Opening(budget, reward, percent), OpenRental(budget, reward, percent);
      && Run(es) == State([x], [], [], [Approval(0, StatusWritten)], [], false)
      && AtMostComing(es, 0, 0) && SoleApprovals(es)
  {
    var es, x := Opening(budget, reward, percent), OpenRental(budget, reward, percent);
    var unread := x.(status := PendingReview, endAt := None, approvals := 0);
    var s1 := State([unread], [], [], [], [], false);
    var s2 := s1.(approvals := [Approval(0, StatusRead)]);
    var s3 := State([x], [], [], [Approval(0, StatusWritten)], [], false);
    RunOfSteps(es, [EMPTY, s1, s2, s3]);
    assert forall i | 0 <= i <= |es| :: Run(es[..i]).joins == [];
  }

  lemma {:induction false} SoleExtended(events: seq<Event>, more: seq<Event>)
    requires SoleApprovals(events) && NoApproval(more)
    ensures SoleApprovals(events + more)
  {
    var all := events + more;
    forall i | 0 <= i < |all|
      ensures SoleApproval(Run(all[..i]), all[i])
    {
      if i < |events| {
        assert all[..i] == events[..i];
        assert SoleApproval(Run(events[..i]), events[i]);
      } else {
        assert all[i] == more[i - |events|];
      }
    }
  }

  lemma PoolIsReserved(s: State, x: Rental)
    requires Outstanding(s, x) && x.poolReserved == 0.0 && x.OwnerPool() > 0.0 && x.ownerPercent > 0.0
    ensures var t := Step(s, ReservePool(0, 1));
      && |t.rentals| == 1 && t.joins == s.joins && SameTerms(t.rentals[0], x)
      && t.rentals[0].spent == s.rentals[0].spent + x.OwnerPool()
  {
    SamePool(s.rentals[0], x);
    assert x.OwnerPool() / 1 as real == x.OwnerPool();
  }

  lemma PoolNeedsPercent(x: Rental)
    requires Terms(x) && x.OwnerPool() > 0.0
    ensures x.ownerPercent > 0.0
  {
    assert x.ownerPercent == 0.0 ==> x.budget * x.ownerPercent == 0.0;
  }

  /** The pool reserved last: m joins one by one, k at once, then the pool. */
  lemma {:induction false} LatePoolOverspends(budget: real, reward: real, percent: real, k: nat, m: nat)
    returns (events: seq<Event>)
    requires Terms(OpenRental(budget, reward, percent)) && k >= 1 && Largest(m, reward, budget)
    requires Times(m, reward) + OpenRental(budget, reward, percent).OwnerPool() >= budget
    ensures SoleApprovals(events) && AtMostComing(events, 0, k) && |Run(events).rentals| == 1
    ensures SameTerms(Run(events).rentals[0], OpenRental(budget, reward, percent))
    ensures Run(events).rentals[0].spent >= budget + Times(k, reward)
  {
    var x := OpenRental(budget, reward, percent);
    var start := Opening(budget, reward, percent);
    OpeningRuns(budget, reward, percent);
    var singles := OneByOne(Run(start), x, m, k);
    Extended(start, singles, k);
    var burst := Burst(Run(start + singles), x, k, k);
    Extended(start + singles, burst, k);
    var before := start + singles + burst;
    PoolNeedsPercent(x);
    PoolIsReserved(Run(before), x);
    PoolAtLast(before, k);
    events := before + [ReservePool(0, 1)];
  }

  /** A regular run goes on, without another approval. */
  lemma {:induction false} Extended(events: seq<Event>, more: seq<Event>, k: nat)
    requires SoleApprovals(events) && AtMostComing(events, 0, k) && NoApproval(more) && Peak(Run(events), more, k)
    ensures SoleApprovals(events + more) && AtMostComing(events + more, 0, k)
    ensures Run(events + more) == RunFrom(Run(events), more)
  {
    assert Peak(EMPTY, events, k);
    PeakJoins(EMPTY, events, more, k);
    RunSplits(EMPTY, events, more);
    SoleExtended(events, more);
  }

  lemma {:induction false} PoolAtLast(before: seq<Event>, k: nat)
    requires SoleApprovals(before) && AtMostComing(before, 0, k)
    ensures var events := before + [ReservePool(0, 1)];
      SoleApprovals(events) && AtMostComing(events, 0, k) && Run(events) == Step(Run(before), ReservePool(0, 1))
  {
    assert before[..|before|] == before;
    PeakOfOne(Run(before), ReservePool(0, 1), k);
    Extended(before, [ReservePool(0, 1)], k);
    RunOne(Run(before), ReservePool(0, 1));
  }

  /** Rental r of this run has the given terms, is approved only from pending review,
      and has at most k joins under way. */
  predicate Regular(events: seq<Event>, r: nat, terms: Rental, k: nat) {
    && r < |Run(events).rentals| && SameTerms(Run(events).rentals[r], terms)
    && SoleApprovals(events) && AtMostComing(events, r, k)
  }

  predicate Below(events: seq<Event>, r: nat, k: nat) {
    r < |Run(events).rentals| ==>
      var x := Run(events).rentals[r];
      x.spent < x.budget + Times(k, x.reward)
  }

  lemma FittingPoolStaysBelow(events: seq<Event>, r: nat, terms: Rental, k: nat, m: nat)
    requires Terms(terms) && k >= 1 && Regular(events, r, terms, k) && Largest(m, terms.reward, terms.budget)
    requires Times(m, terms.reward) + terms.OwnerPool() < terms.budget
    ensures Below(events, r, k)
  {
    SamePool(terms, Run(events).rentals[r]);
    FittingPoolAlwaysHasRoom(events, r, m);
    RunIsBounded(events, r, k, true);
  }

  lemma UnfittingPoolOverspends(terms: Rental, k: nat, m: nat) returns (events: seq<Event>)
    requires Terms(terms) && k >= 1 && Largest(m, terms.reward, terms.budget)
    requires Times(m, terms.reward) + terms.OwnerPool() >= terms.budget
    ensures Regular(events, 0, terms, k) && !Below(events, 0, k)
  {
    var x := OpenRental(terms.budget, terms.reward, terms.ownerPercent);
    assert Terms(x) && SameTerms(x, terms);
    SamePool(terms, x);
    events := LatePoolOverspends(terms.budget, terms.reward, terms.ownerPercent, k, m);
  }

  ghost predicate AlwaysBelow(terms: Rental, k: nat) {
    forall events: seq<Event>, r: nat :: Regular(events, r, terms, k) ==> Below(events, r, k)
  }

  lemma AlwaysBelowIff(terms: Rental, k: nat, m: nat)
    requires Terms(terms) && k >= 1 && Largest(m, terms.reward, terms.budget)
    ensures AlwaysBelow(terms, k) <==> Times(m, terms.reward) + terms.OwnerPool() < terms.budget
  {
    if Times(m, terms.reward) + terms.OwnerPool() < terms.budget {
      forall events: seq<Event>, r: nat | Regular(events, r, terms, k)
        ensures Below(events, r, k)
      {
        FittingPoolStaysBelow(events, r, terms, k, m);
      }
    } else {
      var events := UnfittingPoolOverspends(terms, k, m);
      assert Regular(events, 0, terms, k) && !Below(events, 0, k);
    }
  }

  lemma ProductsBelow(m: nat, reward: real, budget: real, pool: real)
    requires m as real * reward < budget <= (m + 1) as real * reward
    ensures Largest(m, reward, budget)
    ensures Times(m, reward) + pool < budget <==> m as real * reward + pool < budget
  {
    TimesIsProduct(m, reward);
    TimesIsProduct(m + 1, reward);
  }

  /** In whatever order the pool comes, Spent stays below Budget + k*Reward in every
      regular run if and only if the largest multiple of the reward below the budget
      leaves room for the pool. */
  lemma StaysBelowIff(terms: Rental, k: nat, m: nat)
    requires Terms(terms) && k >= 1 && m as real * terms.reward < terms.budget <= (m + 1) as real * terms.reward
    ensures AlwaysBelow(terms, k) <==> m as real * terms.reward + terms.OwnerPool() < terms.budget
  {
    ProductsBelow(m, terms.reward, terms.budget, terms.OwnerPool());
    AlwaysBelowIff(terms, k, m);
  }
}
