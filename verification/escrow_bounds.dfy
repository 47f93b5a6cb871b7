/** How far a rental can overspend its budget. */
module EscrowBounds {
  import opened Text
  import opened Totals
  import opened Escrow
  import opened EscrowFinish

  // ------------------------------------------------------------------- overspend

  /** A join that has passed the budget check and not yet been added. */
  function Coming(r: nat): Join -> real {
    (j: Join) => if j.rental == r && (j.stage == Checked || j.stage == Recorded) then j.amount else 0.0
  }

  function ComingCount(joins: seq<Join>, r: nat): nat {
    if joins == [] then 0
    else
      var j := joins[|joins| - 1];
      ComingCount(joins[..|joins| - 1], r)
      + if j.rental == r && (j.stage == Checked || j.stage == Recorded) then 1 else 0
  }

  /** A pool that the approval will still reserve, and one it has been let to reserve. */
  function Owed(r: nat, pool: real): Approval -> real {
    (a: Approval) => if a.rental == r && a.stage == StatusWritten then pool else 0.0
  }

  function Promised(r: nat, pool: real): Approval -> real {
    (a: Approval) => if a.rental == r && a.stage != StatusRead then pool else 0.0
  }

  /** No join of r passes its check between the approval's status write and the pool,
      unless what is left of the budget covers the pool. */
  predicate PoolHasRoom(s: State, e: Event, r: nat) {
    e.JoinRead? && e.rental == r && r < |s.rentals| && s.rentals[r].spent < s.rentals[r].budget ==>
      || s.rentals[r].spent + s.rentals[r].OwnerPool() < s.rentals[r].budget
      || forall a | a in s.approvals :: a.rental == r ==> a.stage != StatusWritten
  }

  predicate Terms(r: Rental) {
    r.budget > 0.0 && r.reward > 0.0 && 0.0 <= r.ownerPercent <= 100.0
  }

  /** Before its approval a rental has no money moved and no join under way. */
  ghost predicate Quiet(s: State, r: nat, pool: real)
    requires r < |s.rentals|
  {
    var x := s.rentals[r];
    && x.approvals <= 1
    && (x.status == PendingReview ==> x.approvals == 0)
    && (x.status == Active ==> x.approvals == 1)
    && SumBy(s.approvals, Promised(r, pool)) == (if x.approvals == 1 then pool else 0.0)
    && (x.approvals == 0 ==> x.spent == 0.0)
    && (x.approvals == 0 ==> forall a | a in s.approvals :: a.rental == r ==> a.stage == StatusRead)
    && (x.approvals == 0 ==> forall j | j in s.joins :: j.rental != r)
    && (x.approvals == 0 ==> forall w | w in s.rewards :: w.rental != r)
  }

  /** Every join and reward of r carries r's price. */
  predicate Priced(s: State, r: nat)
    requires r < |s.rentals|
  {
    && (forall j | j in s.joins && j.rental == r :: j.amount == s.rentals[r].reward)
    && (forall w | w in s.rewards && w.rental == r :: w.amount == s.rentals[r].reward)
  }

  ghost predicate Bounded(s: State, r: nat, pool: real, cap: real, slack: real)
    requires r < |s.rentals|
  {
    var x := s.rentals[r];
    x.spent + SumBy(s.joins, Coming(r)) + SumBy(s.approvals, Owed(r, pool)) < x.budget + cap + slack
  }

  ghost predicate Held(s: State, r: nat, pool: real, cap: real, slack: real)
    requires r < |s.rentals|
  {
    && Terms(s.rentals[r]) && 0.0 <= pool <= s.rentals[r].budget
    && Quiet(s, r, pool) && Bounded(s, r, pool, cap, slack)
  }

  ghost predicate Inv(s: State, r: nat, pool: real, cap: real, slack: real)
    requires r < |s.rentals|
  {
    Held(s, r, pool, cap, slack) && Priced(s, r)
  }

  /** The slack is the whole pool, or nothing if joins leave room for the pool. */
  predicate Guarded(s: State, e: Event, r: nat, pool: real, slack: real)
    requires r < |s.rentals|
  {
    SoleApproval(s, e) && (slack == pool || (slack == 0.0 && PoolHasRoom(s, e, r)))
  }

  lemma PoolWithinBudget(x: Rental)
    requires Terms(x)
    ensures 0.0 <= x.OwnerPool() <= x.budget
  {
    var p := x.budget * x.ownerPercent;
    assert 0.0 <= p <= x.budget * 100.0;
    HundredthWithin(p, x.budget);
  }

  lemma HundredthWithin(p: real, whole: real)
    requires 0.0 <= p <= whole * 100.0
    ensures 0.0 <= p / 100.0 <= whole
  {}

  lemma {:induction false} OwedWithinPromised(approvals: seq<Approval>, r: nat, pool: real)
    requires pool >= 0.0
    ensures 0.0 <= SumBy(approvals, Owed(r, pool)) <= SumBy(approvals, Promised(r, pool))
  {
    if approvals != [] {
      OwedWithinPromised(approvals[..|approvals| - 1], r, pool);
    }
  }

  lemma JoinReadKeepsHeld(s: State, e: Event, r: nat, pool: real, cap: real, slack: real)
    requires r < |s.rentals| && Inv(s, r, pool, cap, slack) && Guarded(s, e, r, pool, slack) && e.JoinRead?
    requires SumBy(Step(s, e).joins, Coming(r)) <= cap && pool == s.rentals[r].OwnerPool()
    ensures Held(Step(s, e), r, pool, cap, slack)
  {
    var s' := JoinStep(s, e);
    if s' != s {
      SumByAppend(s.joins, s'.joins[|s.joins|], Coming(r));
      OwedWithinPromised(s.approvals, r, pool);
      if e.rental == r && forall a | a in s.approvals :: a.rental == r ==> a.stage != StatusWritten {
        SumByZero(s.approvals, Owed(r, pool));
      }
    }
  }

  lemma JoinRecordKeepsHeld(s: State, e: Event, r: nat, pool: real, cap: real, slack: real)
    requires r < |s.rentals| && Inv(s, r, pool, cap, slack) && e.JoinRecord?
    ensures Held(Step(s, e), r, pool, cap, slack)
  {
    var s' := JoinStep(s, e);
    if s' != s {
      assert s.joins[e.join] in s.joins;
      SumByReplace(s.joins, e.join, s'.joins[e.join], Coming(r));
    }
  }

  lemma JoinAddKeepsHeld(s: State, e: Event, r: nat, pool: real, cap: real, slack: real)
    requires r < |s.rentals| && Inv(s, r, pool, cap, slack) && e.JoinAdd?
    ensures Held(Step(s, e), r, pool, cap, slack)
  {
    var s' := JoinStep(s, e);
    if s' != s {
      assert s.joins[e.join] in s.joins;
      SumByReplace(s.joins, e.join, s'.joins[e.join], Coming(r));
    }
  }

  lemma ApproveReadKeepsHeld(s: State, e: Event, r: nat, pool: real, cap: real, slack: real)
    requires r < |s.rentals| && Inv(s, r, pool, cap, slack) && e.ApproveRead?
    ensures Held(Step(s, e), r, pool, cap, slack)
  {
    var s' := Step(s, e);
    if s' != s {
      SumByAppend(s.approvals, s'.approvals[|s.approvals|], Owed(r, pool));
      SumByAppend(s.approvals, s'.approvals[|s.approvals|], Promised(r, pool));
    }
  }

  lemma ApproveWriteKeepsHeld(s: State, e: Event, r: nat, pool: real, cap: real, slack: real)
    requires r < |s.rentals| && Inv(s, r, pool, cap, slack) && Guarded(s, e, r, pool, slack) && cap > 0.0
    requires e.ApproveWrite?
    ensures Held(Step(s, e), r, pool, cap, slack)
  {
    var s' := Step(s, e);
    if s' != s {
      SumByReplace(s.approvals, e.approval, s'.approvals[e.approval], Owed(r, pool));
      SumByReplace(s.approvals, e.approval, s'.approvals[e.approval], Promised(r, pool));
      if s.approvals[e.approval].rental == r {
        OwedWithinPromised(s.approvals, r, pool);
        SumByZero(s.joins, Coming(r));
      }
    }
  }

  /** Reserving moves the pool from what is owed to what is spent. */
  lemma PoolIsSpent(s: State, e: Event, r: nat, pool: real)
    requires r < |s.rentals| && e.ReservePool? && ApprovalStep(s, e) != s && pool == s.rentals[r].OwnerPool() >= 0.0
    ensures var t, a := ApprovalStep(s, e), s.approvals[e.approval];
      && t.approvals == s.approvals[e.approval := a.(stage := PoolHandled)] && a.stage == StatusWritten
      && t.joins == s.joins && t.rewards == s.rewards
      && t.rentals[r] == s.rentals[r].(spent := t.rentals[r].spent, poolReserved := t.rentals[r].poolReserved)
      && t.rentals[r].spent <= s.rentals[r].spent + if a.rental == r then pool else 0.0
  {}

  lemma ReservePoolKeepsHeld(s: State, e: Event, r: nat, pool: real, cap: real, slack: real)
    requires r < |s.rentals| && Inv(s, r, pool, cap, slack) && e.ReservePool?
    requires pool == s.rentals[r].OwnerPool()
    ensures Held(Step(s, e), r, pool, cap, slack)
  {
    var t := ApprovalStep(s, e);
    if t != s {
      var a := s.approvals[e.approval];
      PoolIsSpent(s, e, r, pool);
      SumByReplace(s.approvals, e.approval, a.(stage := PoolHandled), Owed(r, pool));
      SumByReplace(s.approvals, e.approval, a.(stage := PoolHandled), Promised(r, pool));
      assert a in s.approvals;
      assert s.rentals[r].approvals == 0 ==> a.rental != r;
    }
  }

  lemma ReverseKeepsHeld(s: State, e: Event, r: nat, pool: real, cap: real, slack: real)
    requires r < |s.rentals| && Inv(s, r, pool, cap, slack) && e.Reverse?
    ensures Held(Step(s, e), r, pool, cap, slack)
  {}

  lemma SettlementKeepsHeld(s: State, e: Event, r: nat, pool: real, cap: real, slack: real)
    requires r < |s.rentals| && Inv(s, r, pool, cap, slack)
    requires IsSettlement(e)
    ensures Held(Step(s, e), r, pool, cap, slack)
  {}

  lemma RestKeepsHeld(s: State, e: Event, r: nat, pool: real, cap: real, slack: real)
    requires r < |s.rentals| && Inv(s, r, pool, cap, slack)
    requires e.Propose? || e.RejectRental? || e.MarkDone?
    ensures Held(Step(s, e), r, pool, cap, slack)
  {}

  lemma JoinKeepsHeld(s: State, e: Event, r: nat, pool: real, cap: real, slack: real)
    requires r < |s.rentals| && Inv(s, r, pool, cap, slack) && Guarded(s, e, r, pool, slack)
    requires SumBy(Step(s, e).joins, Coming(r)) <= cap && pool == s.rentals[r].OwnerPool()
    requires e.JoinRead? || e.JoinRecord? || e.JoinAdd?
    ensures r < |Step(s, e).rentals| && Held(Step(s, e), r, pool, cap, slack)
  {
    if e.JoinRead? {
      JoinReadKeepsHeld(s, e, r, pool, cap, slack);
    } else if e.JoinRecord? {
      JoinRecordKeepsHeld(s, e, r, pool, cap, slack);
    } else {
      JoinAddKeepsHeld(s, e, r, pool, cap, slack);
    }
  }

  lemma ApprovalKeepsHeld(s: State, e: Event, r: nat, pool: real, cap: real, slack: real)
    requires r < |s.rentals| && Inv(s, r, pool, cap, slack) && Guarded(s, e, r, pool, slack)
    requires cap > 0.0 && pool == s.rentals[r].OwnerPool()
    requires e.ApproveRead? || e.ApproveWrite? || e.ReservePool?
    ensures r < |Step(s, e).rentals| && Held(Step(s, e), r, pool, cap, slack)
  {
    if e.ApproveRead? {
      ApproveReadKeepsHeld(s, e, r, pool, cap, slack);
    } else if e.ApproveWrite? {
      ApproveWriteKeepsHeld(s, e, r, pool, cap, slack);
    } else {
      ReservePoolKeepsHeld(s, e, r, pool, cap, slack);
    }
  }

  lemma RestMovesNothing(s: State, e: Event, r: nat)
    requires r < |s.rentals|
    requires IsSettlement(e) || e.JoinRead? || e.JoinRecord? || e.Propose? || e.RejectRental? || e.MarkDone?
    ensures var t := Step(s, e);
      && r < |t.rentals| && t.approvals == s.approvals
      && t.rentals[r] == s.rentals[r].(status := t.rentals[r].status, finishes := t.rentals[r].finishes)
      && (t.rentals[r].status == PendingReview ==> s.rentals[r].status == PendingReview)
  {}

  lemma JoinKeepsPrices(s: State, e: Event, r: nat)
    requires r < |s.rentals| && Priced(s, r) && (e.JoinRead? || e.JoinRecord? || e.JoinAdd?)
    ensures Priced(JoinStep(s, e), r)
  {
    if !e.JoinRead? && e.join < |s.joins| {
      assert s.joins[e.join] in s.joins;
    }
  }

  lemma SettlementKeepsPrices(s: State, e: Event, r: nat)
    requires r < |s.rentals| && Priced(s, r) && IsSettlement(e)
    ensures Priced(SettlementStep(s, e), r)
  {
    if s.due != [] && s.due[0] < |s.rewards| {
      assert s.rewards[s.due[0]] in s.rewards;
    }
  }

  lemma ReverseKeepsPrices(s: State, e: Event, r: nat)
    requires r < |s.rentals| && Priced(s, r) && e.Reverse?
    ensures Priced(Step(s, e), r)
  {
    if e.row < |s.rewards| {
      assert s.rewards[e.row] in s.rewards;
    }
  }

  lemma StepKeepsPrices(s: State, e: Event, r: nat)
    requires r < |s.rentals| && Priced(s, r)
    ensures r < |Step(s, e).rentals| && Priced(Step(s, e), r)
  {
    if e.JoinRead? || e.JoinRecord? || e.JoinAdd? {
      JoinKeepsPrices(s, e, r);
    } else if IsSettlement(e) {
      SettlementKeepsPrices(s, e, r);
    } else if e.Reverse? {
      ReverseKeepsPrices(s, e, r);
    } else if e.ApproveRead? || e.ApproveWrite? || e.ReservePool? {
      StepKeepsTerms(s, e, r);
      assert Step(s, e).joins == s.joins && Step(s, e).rewards == s.rewards;
    } else {
      RestMovesNothing(s, e, r);
    }
  }

  lemma StepKeepsInv(s: State, e: Event, r: nat, pool: real, cap: real, slack: real)
    requires r < |s.rentals| && Inv(s, r, pool, cap, slack) && Guarded(s, e, r, pool, slack)
    requires cap > 0.0 && SumBy(Step(s, e).joins, Coming(r)) <= cap && pool == s.rentals[r].OwnerPool()
    ensures r < |Step(s, e).rentals| && Inv(Step(s, e), r, pool, cap, slack)
  {
    StepKeepsPrices(s, e, r);
    if e.JoinRead? || e.JoinRecord? || e.JoinAdd? {
      JoinKeepsHeld(s, e, r, pool, cap, slack);
    } else if e.ApproveRead? || e.ApproveWrite? || e.ReservePool? {
      ApprovalKeepsHeld(s, e, r, pool, cap, slack);
    } else if e.Reverse? {
      ReverseKeepsHeld(s, e, r, pool, cap, slack);
    } else if IsSettlement(e) {
      SettlementKeepsHeld(s, e, r, pool, cap, slack);
    } else {
      RestKeepsHeld(s, e, r, pool, cap, slack);
    }
  }

  // ------------------------------------------------------------------- whole runs

  predicate InRange(s: State) {
    && (forall j | j in s.joins :: j.rental < |s.rentals|)
    && (forall w | w in s.rewards :: w.rental < |s.rentals|)
    && (forall a | a in s.approvals :: a.rental < |s.rentals|)
  }

  lemma {:induction false} RunInRange(events: seq<Event>)
    ensures InRange(Run(events))
  {
    if events != [] {
      RunInRange(events[..|events| - 1]);
      StepInRange(Run(events[..|events| - 1]), events[|events| - 1]);
    }
  }

  lemma JoinInRange(s: State, e: Event)
    requires InRange(s) && (e.JoinRead? || e.JoinRecord? || e.JoinAdd?)
    ensures InRange(JoinStep(s, e))
  {
    if !e.JoinRead? && e.join < |s.joins| {
      assert s.joins[e.join] in s.joins;
    }
  }

  lemma ApprovalInRange(s: State, e: Event)
    requires InRange(s) && (e.ApproveRead? || e.ApproveWrite? || e.ReservePool?)
    ensures InRange(ApprovalStep(s, e))
  {
    if !e.ApproveRead? && e.approval < |s.approvals| {
      assert s.approvals[e.approval] in s.approvals;
    }
  }

  lemma SettlementInRange(s: State, e: Event)
    requires InRange(s) && IsSettlement(e)
    ensures InRange(SettlementStep(s, e))
  {
    if s.due != [] && s.due[0] < |s.rewards| {
      assert s.rewards[s.due[0]] in s.rewards;
    }
  }

  lemma ReverseInRange(s: State, row: nat)
    requires InRange(s)
    ensures InRange(Step(s, Reverse(row)))
  {
    if row < |s.rewards| {
      assert s.rewards[row] in s.rewards;
    }
  }

  lemma StepInRange(s: State, e: Event)
    requires InRange(s)
    ensures InRange(Step(s, e))
  {
    if e.JoinRead? || e.JoinRecord? || e.JoinAdd? {
      JoinInRange(s, e);
    } else if e.ApproveRead? || e.ApproveWrite? || e.ReservePool? {
      ApprovalInRange(s, e);
    } else if IsSettlement(e) {
      SettlementInRange(s, e);
    } else if e.Reverse? {
      ReverseInRange(s, e.row);
    }
  }

  /** The price times the joins under way. */
  lemma {:induction false} ComingAmount(joins: seq<Join>, r: nat, reward: real)
    requires forall j | j in joins && j.rental == r :: j.amount == reward
    ensures SumBy(joins, Coming(r)) == Times(ComingCount(joins, r), reward)
  {
    if joins != [] {
      assert joins[|joins| - 1] in joins;
      ComingAmount(joins[..|joins| - 1], r, reward);
    }
  }

  /** At most k join handlers of r are past the check and not yet added, at any time. */
  predicate AtMostComing(events: seq<Event>, r: nat, k: nat) {
    forall i | 0 <= i <= |events| :: ComingCount(Run(events[..i]).joins, r) <= k
  }

  predicate PoolAlwaysHasRoom(events: seq<Event>, r: nat) {
    forall i | 0 <= i < |events| :: PoolHasRoom(Run(events[..i]), events[i], r)
  }

  function Slack(x: Rental, roomy: bool): real {
    if roomy then 0.0 else x.OwnerPool()
  }

  lemma NewRentalInv(s: State, e: Event, pool: real, cap: real, slack: real)
    requires InRange(s) && e.Propose? && |Step(s, e).rentals| == |s.rentals| + 1
    requires Terms(Step(s, e).rentals[|s.rentals|]) && 0.0 <= pool <= e.budget && cap > 0.0 && slack >= 0.0
    ensures Inv(Step(s, e), |s.rentals|, pool, cap, slack)
  {
    var r := |s.rentals|;
    SumByZero(s.joins, Coming(r));
    SumByZero(s.approvals, Owed(r, pool));
    SumByZero(s.approvals, Promised(r, pool));
  }

  lemma StepKeepsTerms(s: State, e: Event, r: nat)
    requires r < |s.rentals|
    ensures var s' := Step(s, e);
      && r < |s'.rentals|
      && s'.rentals[r].budget == s.rentals[r].budget && s'.rentals[r].reward == s.rentals[r].reward
      && s'.rentals[r].ownerPercent == s.rentals[r].ownerPercent
      && s'.rentals[r].OwnerPool() == s.rentals[r].OwnerPool()
  {
    SamePool(s.rentals[r], Step(s, e).rentals[r]);
  }

  lemma SamePool(x: Rental, y: Rental)
    requires y.budget == x.budget && y.ownerPercent == x.ownerPercent
    ensures y.OwnerPool() == x.OwnerPool()
  {}

  lemma JoinsPriced(s: State, e: Event, r: nat, k: nat)
    requires r < |s.rentals| && Terms(s.rentals[r]) && Priced(s, r) && ComingCount(Step(s, e).joins, r) <= k
    ensures SumBy(Step(s, e).joins, Coming(r)) <= Times(k, s.rentals[r].reward)
  {
    var s' := Step(s, e);
    var reward := s.rentals[r].reward;
    forall j | j in s'.joins && j.rental == r ensures j.amount == reward {
      var i :| 0 <= i < |s'.joins| && s'.joins[i] == j;
      if i < |s.joins| {
        assert s.joins[i] in s.joins;
      }
    }
    ComingAmount(s'.joins, r, reward);
    TimesMonotone(ComingCount(s'.joins, r), k, reward);
  }

  ghost predicate RunInv(s: State, r: nat, k: nat, roomy: bool)
    requires r < |s.rentals|
  {
    var x := s.rentals[r];
    Inv(s, r, x.OwnerPool(), Times(k, x.reward), Slack(x, roomy))
  }

  lemma {:induction false} OneMoreStep(s: State, e: Event, r: nat, k: nat, roomy: bool)
    requires r < |s.rentals| && k >= 1 && ComingCount(Step(s, e).joins, r) <= k
    requires SoleApproval(s, e) && (roomy ==> PoolHasRoom(s, e, r))
    requires RunInv(s, r, k, roomy)
    ensures r < |Step(s, e).rentals| && RunInv(Step(s, e), r, k, roomy)
  {
    var x := s.rentals[r];
    StepKeepsTerms(s, e, r);
    TimesMonotone(0, k, x.reward);
    JoinsPriced(s, e, r, k);
    StepKeepsInv(s, e, r, x.OwnerPool(), Times(k, x.reward), Slack(x, roomy));
  }

  lemma FirstStep(s: State, e: Event, k: nat, roomy: bool)
    requires InRange(s) && k >= 1 && |Step(s, e).rentals| == |s.rentals| + 1
    requires Terms(Step(s, e).rentals[|s.rentals|])
    ensures RunInv(Step(s, e), |s.rentals|, k, roomy)
  {
    var x := Step(s, e).rentals[|s.rentals|];
    PoolWithinBudget(x);
    TimesMonotone(0, k, x.reward);
    NewRentalInv(s, e, x.OwnerPool(), Times(k, x.reward), Slack(x, roomy));
  }

  lemma {:induction false} RunKeepsInv(events: seq<Event>, r: nat, k: nat, roomy: bool)
    requires SoleApprovals(events) && k >= 1 && AtMostComing(events, r, k)
    requires roomy ==> PoolAlwaysHasRoom(events, r)
    requires r < |Run(events).rentals| && Terms(Run(events).rentals[r])
    ensures RunInv(Run(events), r, k, roomy)
  {
    if events != [] {
      var n := |events| - 1;
      Prefixes(events, r, k, roomy);
      LastEvent(events, r, k, roomy);
      RunInRange(events[..n]);
      if r < |Run(events[..n]).rentals| {
        StepKeepsTerms(Run(events[..n]), events[n], r);
        RunKeepsInv(events[..n], r, k, roomy);
      }
      AnyStep(Run(events[..n]), events[n], r, k, roomy);
    }
  }

  lemma {:induction false} AnyStep(s: State, e: Event, r: nat, k: nat, roomy: bool)
    requires InRange(s) && k >= 1 && ComingCount(Step(s, e).joins, r) <= k
    requires SoleApproval(s, e) && (roomy ==> PoolHasRoom(s, e, r))
    requires r < |Step(s, e).rentals| && Terms(Step(s, e).rentals[r])
    requires r < |s.rentals| ==> RunInv(s, r, k, roomy)
    ensures RunInv(Step(s, e), r, k, roomy)
  {
    if r < |s.rentals| {
      OneMoreStep(s, e, r, k, roomy);
    } else {
      FirstStep(s, e, k, roomy);
    }
  }

  lemma {:induction false} LastEvent(events: seq<Event>, r: nat, k: nat, roomy: bool)
    requires SoleApprovals(events) && AtMostComing(events, r, k) && (roomy ==> PoolAlwaysHasRoom(events, r))
    requires events != []
    ensures var s, e := Run(events[..|events| - 1]), events[|events| - 1];
      && Run(events) == Step(s, e)
      && SoleApproval(s, e) && (roomy ==> PoolHasRoom(s, e, r))
      && ComingCount(Step(s, e).joins, r) <= k
  {
    var n := |events| - 1;
    assert SoleApproval(Run(events[..n]), events[n]);
    assert roomy ==> PoolHasRoom(Run(events[..n]), events[n], r);
    assert ComingCount(Run(events[..|events|]).joins, r) <= k;
    assert events[..|events|] == events;
  }

  lemma {:induction false} Prefixes(events: seq<Event>, r: nat, k: nat, roomy: bool)
    requires SoleApprovals(events) && AtMostComing(events, r, k) && (roomy ==> PoolAlwaysHasRoom(events, r))
    requires events != []
    ensures var init := events[..|events| - 1];
      SoleApprovals(init) && AtMostComing(init, r, k) && (roomy ==> PoolAlwaysHasRoom(init, r))
  {
    var n := |events| - 1;
    var init := events[..n];
    SoleApprovalsPrefix(events, n);
    forall i | 0 <= i <= n ensures ComingCount(Run(init[..i]).joins, r) <= k {
      assert init[..i] == events[..i];
    }
    if roomy {
      forall i | 0 <= i < n ensures PoolHasRoom(Run(init[..i]), init[i], r) {
        assert init[..i] == events[..i];
      }
    }
  }

  /** With at most k joins under way and approval only from pending review, Spent
      stays strictly below Budget + k*Reward when no join takes the pool's room, as when
      the pool is reserved first, and below that plus the pool in any order. */
  lemma {:induction false} OverspendIsBounded(events: seq<Event>, r: nat, k: nat, roomy: bool)
    requires SoleApprovals(events) && k >= 1 && AtMostComing(events, r, k)
    requires roomy ==> PoolAlwaysHasRoom(events, r)
    requires r < |Run(events).rentals| && Terms(Run(events).rentals[r])
    ensures var x := Run(events).rentals[r];
      x.spent < x.budget + k as real * x.reward + Slack(x, roomy)
  {
    RunIsBounded(events, r, k, roomy);
    TimesIsProduct(k, Run(events).rentals[r].reward);
  }

  lemma RunIsBounded(events: seq<Event>, r: nat, k: nat, roomy: bool)
    requires SoleApprovals(events) && k >= 1 && AtMostComing(events, r, k)
    requires roomy ==> PoolAlwaysHasRoom(events, r)
    requires r < |Run(events).rentals| && Terms(Run(events).rentals[r])
    ensures var x := Run(events).rentals[r];
      x.spent < x.budget + Times(k, x.reward) + Slack(x, roomy)
  {
    var x := Run(events).rentals[r];
    RunKeepsInv(events, r, k, roomy);
    BoundedMeans(Run(events), r, x.OwnerPool(), Times(k, x.reward), Slack(x, roomy));
  }

  lemma BoundedMeans(s: State, r: nat, pool: real, cap: real, slack: real)
    requires r < |s.rentals| && Inv(s, r, pool, cap, slack)
    ensures s.rentals[r].spent < s.rentals[r].budget + cap + slack
  {
    var x := s.rentals[r];
    OwedWithinPromised(s.approvals, r, pool);
    ComingAmount(s.joins, r, x.reward);
    TimesMonotone(0, ComingCount(s.joins, r), x.reward);
  }
}
