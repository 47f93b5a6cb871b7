/** Every interleaving of joins, fraud reversals, settlements and completions keeps
    the money columns of a rental explained by its rows. */
module EscrowBooks {
  import opened Totals
  import opened Escrow

  // ------------------------------------------------------------------- columns

  /** What a reward row holds of its rental's budget: nothing once reversed. */
  function Held(r: nat): Reward -> real {
    (x: Reward) => if x.rental == r && x.status != RewardReversed then x.amount else 0.0
  }

  /** Recorded but not yet added to Spent. */
  function InFlight(r: nat): Join -> real {
    (j: Join) => if j.rental == r && j.stage == Recorded then j.amount else 0.0
  }

  /** Spent is the owner pool and the held rewards, less what is in flight. */
  ghost predicate Explained(s: State, r: nat)
    requires r < |s.rentals|
  {
    s.rentals[r].spent == s.rentals[r].poolReserved + SumBy(s.rewards, Held(r)) - SumBy(s.joins, InFlight(r))
  }

  ghost predicate Books(s: State) {
    && (forall r: nat | r < |s.rentals| :: Explained(s, r))
    && (forall x | x in s.rewards :: x.rental < |s.rentals|)
    && (forall j | j in s.joins :: j.rental < |s.rentals|)
    && (forall a | a in s.approvals :: a.rental < |s.rentals|)
  }

  lemma ReplaceReward(s: State, i: nat, x: Reward)
    requires i < |s.rewards|
    ensures forall r ::
      SumBy(s.rewards[i := x], Held(r)) ==
      SumBy(s.rewards, Held(r)) - Held(r)(s.rewards[i]) + Held(r)(x)
  {
    forall r
      ensures SumBy(s.rewards[i := x], Held(r)) ==
        SumBy(s.rewards, Held(r)) - Held(r)(s.rewards[i]) + Held(r)(x)
    {
      SumByReplace(s.rewards, i, x, Held(r));
    }
  }

  lemma ReplaceJoin(s: State, i: nat, x: Join)
    requires i < |s.joins|
    ensures forall r ::
      SumBy(s.joins[i := x], InFlight(r)) ==
      SumBy(s.joins, InFlight(r)) - InFlight(r)(s.joins[i]) + InFlight(r)(x)
  {
    forall r
      ensures SumBy(s.joins[i := x], InFlight(r)) ==
        SumBy(s.joins, InFlight(r)) - InFlight(r)(s.joins[i]) + InFlight(r)(x)
    {
      SumByReplace(s.joins, i, x, InFlight(r));
    }
  }

  lemma JoinReadKeepsBooks(s: State, e: Event)
    requires Books(s) && e.JoinRead?
    ensures Books(JoinStep(s, e))
  {
    var s' := JoinStep(s, e);
    if s' != s {
      forall r: nat | r < |s'.rentals| ensures Explained(s', r) {
        SumByAppend(s.joins, s'.joins[|s.joins|], InFlight(r));
        assert Explained(s, r);
      }
    }
  }

  /** What recording join i writes: the join moves on, and the first time there is a
      reward row of its amount. */
  lemma RecordWrites(s: State, e: Event)
    requires e.JoinRecord? && e.join < |s.joins| && s.joins[e.join].stage == Checked
    ensures var s', x := JoinStep(s, e), s.joins[e.join];
      && s'.rentals == s.rentals && |s'.joins| == |s.joins|
      && s'.joins == s.joins[e.join := x.(stage := s'.joins[e.join].stage)]
      && (if s'.joins[e.join].stage == Recorded
          then |s'.rewards| == |s.rewards| + 1 && s'.rewards == s.rewards + [s'.rewards[|s.rewards|]]
               && s'.rewards[|s.rewards|].rental == x.rental && s'.rewards[|s.rewards|].amount == x.amount
               && s'.rewards[|s.rewards|].status == RewardPending
          else s'.rewards == s.rewards)
  {}

  lemma JoinRecordExplains(s: State, e: Event, r: nat)
    requires e.JoinRecord? && e.join < |s.joins| && s.joins[e.join].stage == Checked
    requires r < |s.rentals| && Explained(s, r)
    ensures Explained(JoinStep(s, e), r)
  {
    RecordWrites(s, e);
    var s' := JoinStep(s, e);
    SumByReplace(s.joins, e.join, s'.joins[e.join], InFlight(r));
    if s'.joins[e.join].stage == Recorded {
      SumByAppend(s.rewards, s'.rewards[|s.rewards|], Held(r));
    }
  }

  lemma JoinRecordKeepsBooks(s: State, e: Event)
    requires Books(s) && e.JoinRecord?
    ensures Books(JoinStep(s, e))
  {
    var s' := JoinStep(s, e);
    if s' != s {
      assert s.joins[e.join] in s.joins;
      forall r: nat | r < |s'.rentals|
        ensures Explained(s', r)
      {
        assert Explained(s, r);
        JoinRecordExplains(s, e, r);
      }
    }
  }

  lemma JoinAddKeepsBooks(s: State, e: Event)
    requires Books(s) && e.JoinAdd?
    ensures Books(JoinStep(s, e))
  {
    var s' := JoinStep(s, e);
    if s' != s {
      assert s.joins[e.join] in s.joins;
      ReplaceJoin(s, e.join, s'.joins[e.join]);
      forall r: nat | r < |s'.rentals| ensures Explained(s', r) {
        assert Explained(s, r);
      }
    }
  }

  lemma SettlementKeepsBooks(s: State, e: Event)
    requires Books(s) && IsSettlement(e)
    ensures Books(SettlementStep(s, e))
  {
    var s' := SettlementStep(s, e);
    if s'.rewards != s.rewards {
      var i := s.due[0];
      assert s.rewards[i] in s.rewards;
      assert s'.rewards == s.rewards[i := s'.rewards[i]];
      ReplaceReward(s, i, s'.rewards[i]);
    }
    forall r: nat | r < |s'.rentals| ensures Explained(s', r) {
      assert Explained(s, r);
    }
  }

  lemma ReverseKeepsBooks(s: State, i: nat)
    requires Books(s)
    ensures Books(Step(s, Reverse(i)))
  {
    var s' := Step(s, Reverse(i));
    if s'.rewards != s.rewards {
      assert s.rewards[i] in s.rewards;
      ReplaceReward(s, i, s'.rewards[i]);
    }
    forall r: nat | r < |s'.rentals| ensures Explained(s', r) {
      assert Explained(s, r);
    }
  }

  lemma ApprovalKeepsBooks(s: State, e: Event)
    requires Books(s) && (e.ApproveRead? || e.ApproveWrite? || e.ReservePool?)
    ensures Books(ApprovalStep(s, e))
  {
    var s' := ApprovalStep(s, e);
    if !e.ApproveRead? && e.approval < |s.approvals| {
      assert s.approvals[e.approval] in s.approvals;
    }
    forall r: nat | r < |s'.rentals| ensures Explained(s', r) {
      assert Explained(s, r);
      ApprovalMovesBoth(s, e, r);
    }
  }

  lemma ApprovalMovesBoth(s: State, e: Event, r: nat)
    requires (e.ApproveRead? || e.ApproveWrite? || e.ReservePool?) && r < |s.rentals|
    ensures var s' := ApprovalStep(s, e);
      && |s'.rentals| == |s.rentals| && s'.rewards == s.rewards && s'.joins == s.joins
      && s'.rentals[r].spent - s'.rentals[r].poolReserved == s.rentals[r].spent - s.rentals[r].poolReserved
  {}

  lemma OtherKeepsBooks(s: State, e: Event)
    requires Books(s) && (e.Propose? || e.RejectRental? || e.MarkDone?)
    ensures Books(Step(s, e))
  {
    var s' := Step(s, e);
    forall r: nat | r < |s'.rentals| ensures Explained(s', r) {
      if r < |s.rentals| {
        assert Explained(s, r);
      } else {
        SumByZero(s.rewards, Held(r));
        SumByZero(s.joins, InFlight(r));
      }
    }
  }

  lemma StepKeepsBooks(s: State, e: Event)
    requires Books(s)
    ensures Books(Step(s, e))
  {
    if IsSettlement(e) {
      SettlementKeepsBooks(s, e);
    } else if e.JoinRead? {
      JoinReadKeepsBooks(s, e);
    } else if e.JoinRecord? {
      JoinRecordKeepsBooks(s, e);
    } else if e.JoinAdd? {
      JoinAddKeepsBooks(s, e);
    } else if e.ApproveRead? || e.ApproveWrite? || e.ReservePool? {
      ApprovalKeepsBooks(s, e);
    } else if e.Reverse? {
      ReverseKeepsBooks(s, e.row);
    } else {
      OtherKeepsBooks(s, e);
    }
  }

  /** In every reachable state each rental's Spent is its owner pool plus all pending
      and settled join rewards minus the rewards recorded but not yet added. */
  lemma {:induction false} SpentIsExplained(events: seq<Event>)
    ensures Books(Run(events))
  {
    if events != [] {
      SpentIsExplained(events[..|events| - 1]);
      StepKeepsBooks(Run(events[..|events| - 1]), events[|events| - 1]);
    }
  }

  // ------------------------------------------------------------- terminal states

  /** Only the credit history of the row may have changed. */
  predicate SameButCredits(x: Reward, y: Reward) {
    y == x.(credited := y.credited, unmarked := y.unmarked)
  }

  lemma JoinLeavesRow(s: State, e: Event, i: nat)
    requires i < |s.rewards| && (e.JoinRead? || e.JoinRecord? || e.JoinAdd?)
    ensures var t := JoinStep(s, e); i < |t.rewards| && t.rewards[i] == s.rewards[i]
  {}

  lemma SettlementLeavesRow(s: State, e: Event, i: nat)
    requires i < |s.rewards| && s.rewards[i].status != RewardPending && IsSettlement(e)
    ensures var t := SettlementStep(s, e); i < |t.rewards| && SameButCredits(s.rewards[i], t.rewards[i])
  {}

  lemma StepLeavesRow(s: State, e: Event, i: nat)
    requires i < |s.rewards| && s.rewards[i].status != RewardPending
    ensures var t := Step(s, e); i < |t.rewards| && SameButCredits(s.rewards[i], t.rewards[i])
  {
    if IsSettlement(e) {
      SettlementLeavesRow(s, e, i);
    } else if e.JoinRead? || e.JoinRecord? || e.JoinAdd? {
      JoinLeavesRow(s, e, i);
    }
  }

  /** A settled or reversed row is never touched again, except for its credit history. */
  lemma {:induction false} SettledAndReversedAreTerminal(s: State, events: seq<Event>, i: nat)
    requires i < |s.rewards| && s.rewards[i].status != RewardPending
    ensures i < |RunFrom(s, events).rewards| && SameButCredits(s.rewards[i], RunFrom(s, events).rewards[i])
  {
    if events != [] {
      SettledAndReversedAreTerminal(s, events[..|events| - 1], i);
      StepLeavesRow(RunFrom(s, events[..|events| - 1]), events[|events| - 1], i);
    }
  }

  // --------------------------------------------------------- once per rental and user

  /** The join has counted for its rental, or is about to. */
  predicate Through(j: Join) {
    j.stage == Recorded || j.stage == Added
  }

  predicate OnePerUser(rewards: seq<Reward>) {
    forall i, k | 0 <= i < k < |rewards| :: rewards[i].rental != rewards[k].rental || rewards[i].user != rewards[k].user
  }

  predicate OnceThrough(joins: seq<Join>) {
    forall i, k | 0 <= i < k < |joins| && Through(joins[i]) && Through(joins[k]) ::
      joins[i].rental != joins[k].rental || joins[i].user != joins[k].user
  }

  predicate ThroughIsRewarded(joins: seq<Join>, rewards: seq<Reward>) {
    forall i | 0 <= i < |joins| && Through(joins[i]) :: HasReward(rewards, joins[i].rental, joins[i].user)
  }

  predicate Once(s: State) {
    OnePerUser(s.rewards) && OnceThrough(s.joins) && ThroughIsRewarded(s.joins, s.rewards)
  }

  /** Every row stays with its rental and user. */
  predicate SameOwners(xs: seq<Reward>, ys: seq<Reward>) {
    |xs| == |ys| && forall i | 0 <= i < |xs| :: ys[i].rental == xs[i].rental && ys[i].user == xs[i].user
  }

  lemma OwnersKeepOnce(s: State, t: State)
    requires Once(s) && t.joins == s.joins && SameOwners(s.rewards, t.rewards)
    ensures Once(t)
  {
    forall i | 0 <= i < |t.joins| && Through(t.joins[i])
      ensures HasReward(t.rewards, t.joins[i].rental, t.joins[i].user)
    {
      assert HasReward(s.rewards, s.joins[i].rental, s.joins[i].user);
      var k :| 0 <= k < |s.rewards| && s.rewards[k].rental == s.joins[i].rental && s.rewards[k].user == s.joins[i].user;
      assert t.rewards[k].rental == s.joins[i].rental && t.rewards[k].user == s.joins[i].user;
    }
  }

  lemma NoJoinKeepsOwners(s: State, e: Event)
    requires !e.JoinRead? && !e.JoinRecord? && !e.JoinAdd?
    ensures var t := Step(s, e); t.joins == s.joins && SameOwners(s.rewards, t.rewards)
  {}

  lemma RewardedStays(joins: seq<Join>, rewards: seq<Reward>, w: Reward)
    requires ThroughIsRewarded(joins, rewards)
    ensures ThroughIsRewarded(joins, rewards + [w])
  {
    forall i | 0 <= i < |joins| && Through(joins[i])
      ensures HasReward(rewards + [w], joins[i].rental, joins[i].user)
    {
      assert HasReward(rewards, joins[i].rental, joins[i].user);
      var k :| 0 <= k < |rewards| && rewards[k].rental == joins[i].rental && rewards[k].user == joins[i].user;
      assert (rewards + [w])[k] == rewards[k];
    }
  }

  /** A first record: the pair had no row, so no other join of it is through. */
  lemma FirstRecordKeepsOnce(s: State, i: nat, y: Join, w: Reward)
    requires Once(s) && i < |s.joins| && !HasReward(s.rewards, y.rental, y.user)
    requires w.rental == y.rental && w.user == y.user
    ensures Once(s.(joins := s.joins[i := y], rewards := s.rewards + [w]))
  {
    RewardedStays(s.joins, s.rewards, w);
    var rewards := s.rewards + [w];
    assert rewards[|s.rewards|] == w;
    forall k | 0 <= k < |s.joins| && Through(s.joins[k])
      ensures s.joins[k].rental != y.rental || s.joins[k].user != y.user
    {
      assert HasReward(s.rewards, s.joins[k].rental, s.joins[k].user);
    }
  }

  lemma JoinKeepsOnce(s: State, e: Event)
    requires Once(s) && (e.JoinRead? || e.JoinRecord? || e.JoinAdd?)
    ensures Once(JoinStep(s, e))
  {
    var t := JoinStep(s, e);
    if e.JoinRecord? && e.join < |s.joins| && s.joins[e.join].stage == Checked {
      var x := s.joins[e.join];
      if !HasReward(s.rewards, x.rental, x.user) {
        FirstRecordKeepsOnce(s, e.join, x.(stage := Recorded), t.rewards[|s.rewards|]);
      }
    }
  }

  /** However often and however concurrently a user joins for a rental, there is one
      reward row at most, and one join at most counts for the rental's budget. */
  lemma {:induction false} JoinsCountOnce(events: seq<Event>)
    ensures OnePerUser(Run(events).rewards) && OnceThrough(Run(events).joins)
    ensures ThroughIsRewarded(Run(events).joins, Run(events).rewards)
  {
    if events != [] {
      var s, e := Run(events[..|events| - 1]), events[|events| - 1];
      JoinsCountOnce(events[..|events| - 1]);
      if e.JoinRead? || e.JoinRecord? || e.JoinAdd? {
        JoinKeepsOnce(s, e);
      } else {
        NoJoinKeepsOwners(s, e);
        OwnersKeepOnce(s, Step(s, e));
      }
    }
  }
}
