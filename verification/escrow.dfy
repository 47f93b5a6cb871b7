/** Lock-rental escrow (ads-bot/internal/store/store.go, tgbot/lockrental.go). Every
    database statement is one step; the handlers that issue several are interleaved.
    Amounts are reals. */
module Escrow {
  import opened Text

  const SETTLEMENT_DELAY: int := 24 * 3600
  const RENTAL_DURATION: int := 30 * 24 * 3600
  const DUE_LIMIT: nat := 200

  datatype RentalStatus = PendingReview | Active | Paused | RentalRejected | Done

  /** The last three fields are history, not columns: what was reserved for bot
      owners, how often the rental was approved and how often it was finished. */
  datatype Rental = Rental(
    channel: int, status: RentalStatus, reward: real, budget: real, ownerPercent: real,
    spent: real, joins: int, endAt: Option<int>,
    poolReserved: real, approvals: nat, finishes: nat)
  {
    function RemainingBudget(): real {
      budget - spent
    }

    predicate IsActive(now: int) {
      status == Active && RemainingBudget() > 0.0 && !(endAt.Some? && now > endAt.value)
    }

    function OwnerPool(): real {
      budget * ownerPercent / 100.0
    }
  }

  datatype RewardStatus = RewardPending | RewardSettled | RewardReversed

  /** The last two are history: how often the wallet was credited for this row, and
      how many of these credits the program went on without marking the row. */
  datatype Reward = Reward(
    rental: nat, user: int, amount: real, status: RewardStatus, settleAt: int, credited: nat, unmarked: nat)

  /** HandleMembershipJoined between its database calls. */
  datatype JoinStage = Checked | Recorded | Added | Ended
  datatype Join = Join(rental: nat, user: int, amount: real, stage: JoinStage)

  /** approveLockRental between its database calls. */
  datatype ApprovalStage = StatusRead | StatusWritten | PoolHandled
  datatype Approval = Approval(rental: nat, stage: ApprovalStage)

  /** `due` is what the settlement pass has still to process; `paid` says that the
      first of it has been credited and not yet marked. */
  datatype State = State(
    rentals: seq<Rental>, rewards: seq<Reward>, joins: seq<Join>, approvals: seq<Approval>,
    due: seq<nat>, paid: bool)

  datatype Event =
    | Propose(channel: int, budget: real, reward: real, ownerPercent: real)
    | ApproveRead(rental: nat)
    | ApproveWrite(approval: nat, now: int)
    | ReservePool(approval: nat, slots: nat)
    | RejectRental(rental: nat)
    | JoinRead(rental: nat, user: int, now: int)
    | JoinRecord(join: nat, now: int)
    | JoinAdd(join: nat)
    | MarkDone(rental: nat, now: int)
    | Reverse(row: nat)
    | ScanDue(now: int)
    | CreditFirst
    | CreditFails
    | CreditLost
    | SettleFirst
    | MarkFails
    | Crash

  // ------------------------------------------------------- statements on the tables

  /** Unique (rental, user): the insert does nothing when the pair is there. */
  predicate HasReward(rewards: seq<Reward>, rental: nat, user: int) {
    exists i | 0 <= i < |rewards| :: rewards[i].rental == rental && rewards[i].user == user
  }

  function TryRecordJoinReward(
    rewards: seq<Reward>, rental: nat, user: int, amount: real, now: int): (seq<Reward>, bool)
  {
    if HasReward(rewards, rental, user) then (rewards, false)
    else (rewards + [Reward(rental, user, amount, RewardPending, now + SETTLEMENT_DELAY, 0, 0)], true)
  }

  function AddRentalJoinCount(rentals: seq<Rental>, r: nat, joins: int, cost: real): seq<Rental> {
    if r >= |rentals| then rentals
    else rentals[r := rentals[r].(joins := rentals[r].joins + joins, spent := rentals[r].spent + cost)]
  }

  function IncrementRentalSpentOnly(rentals: seq<Rental>, r: nat, cost: real): seq<Rental> {
    if r >= |rentals| then rentals
    else rentals[r := rentals[r].(spent := rentals[r].spent + cost, poolReserved := rentals[r].poolReserved + cost)]
  }

  function ReverseReward(rentals: seq<Rental>, rewards: seq<Reward>, i: nat): (seq<Rental>, seq<Reward>) {
    if i >= |rewards| || rewards[i].status != RewardPending then (rentals, rewards)
    else
      var x := rewards[i];
      (if x.rental >= |rentals| then rentals
       else rentals[x.rental := rentals[x.rental].(spent := rentals[x.rental].spent - x.amount)],
       rewards[i := x.(status := RewardReversed)])
  }

  function SettleReward(rewards: seq<Reward>, i: nat): seq<Reward> {
    if i >= |rewards| || rewards[i].status != RewardPending then rewards
    else rewards[i := rewards[i].(status := RewardSettled)]
  }

  function MarkRentalDoneIfFinished(rentals: seq<Rental>, r: nat, now: int): (seq<Rental>, bool) {
    if r < |rentals| && rentals[r].status == Active
       && (rentals[r].spent >= rentals[r].budget || (rentals[r].endAt.Some? && rentals[r].endAt.value <= now))
    then (rentals[r := rentals[r].(status := Done, finishes := rentals[r].finishes + 1)], true)
    else (rentals, false)
  }

  /** No status is asked for: the update goes through whatever the row holds. */
  function ApproveLockRental(rentals: seq<Rental>, r: nat, now: int): seq<Rental> {
    if r >= |rentals| then rentals
    else rentals[r := rentals[r].(status := Active, endAt := Some(now + RENTAL_DURATION),
                                  approvals := rentals[r].approvals + 1)]
  }

  function RejectLockRental(rentals: seq<Rental>, r: nat): seq<Rental> {
    if r >= |rentals| then rentals else rentals[r := rentals[r].(status := RentalRejected)]
  }

  /** The pending rows whose time has come, at most `limit` of them. */
  function FindDueRewards(rewards: seq<Reward>, now: int, limit: nat): seq<nat> {
    if rewards == [] then []
    else
      var n := |rewards| - 1;
      var before := FindDueRewards(rewards[..n], now, limit);
      if |before| < limit && rewards[n].status == RewardPending && rewards[n].settleAt <= now
      then before + [n] else before
  }

  // ------------------------------------------------------------------------- steps

  function JoinStep(s: State, e: Event): State
    requires e.JoinRead? || e.JoinRecord? || e.JoinAdd?
  {
    match e
    case JoinRead(r, user, now) =>
      if r < |s.rentals| && s.rentals[r].IsActive(now)
      then s.(joins := s.joins + [Join(r, user, s.rentals[r].reward, Checked)]) else s
    case JoinRecord(j, now) =>
      if j >= |s.joins| || s.joins[j].stage != Checked then s
      else
        var x := s.joins[j];
        var (rewards, first) := TryRecordJoinReward(s.rewards, x.rental, x.user, x.amount, now);
        s.(rewards := rewards, joins := s.joins[j := x.(stage := if first then Recorded else Ended)])
    case JoinAdd(j) =>
      if j >= |s.joins| || s.joins[j].stage != Recorded then s
      else
        var x := s.joins[j];
        s.(rentals := AddRentalJoinCount(s.rentals, x.rental, 1, x.amount),
           joins := s.joins[j := x.(stage := Added)])
  }

  function ApprovalStep(s: State, e: Event): State
    requires e.ApproveRead? || e.ApproveWrite? || e.ReservePool?
  {
    match e
    case ApproveRead(r) =>
      if r < |s.rentals| && s.rentals[r].status == PendingReview
      then s.(approvals := s.approvals + [Approval(r, StatusRead)]) else s
    case ApproveWrite(a, now) =>
      if a >= |s.approvals| || s.approvals[a].stage != StatusRead then s
      else
        var x := s.approvals[a];
        s.(rentals := ApproveLockRental(s.rentals, x.rental, now),
           approvals := s.approvals[a := x.(stage := StatusWritten)])
    case ReservePool(a, slots) =>
      if a >= |s.approvals| || s.approvals[a].stage != StatusWritten then s
      else
        var x := s.approvals[a];
        var approvals := s.approvals[a := x.(stage := PoolHandled)];
        if x.rental >= |s.rentals| || !PaysOwners(s.rentals[x.rental], slots) then s.(approvals := approvals)
        else s.(approvals := approvals,
                rentals := IncrementRentalSpentOnly(s.rentals, x.rental, s.rentals[x.rental].OwnerPool()))
  }

  /** payFreeBotOwners gets past its two early returns. */
  predicate PaysOwners(r: Rental, slots: nat) {
    slots > 0 && r.ownerPercent > 0.0 && r.OwnerPool() / slots as real > 0.0
  }

  predicate IsSettlement(e: Event) {
    e.ScanDue? || e.CreditFirst? || e.CreditFails? || e.CreditLost? || e.SettleFirst? || e.MarkFails? || e.Crash?
  }

  /** The wallet is credited for row i; there is no idempotency key. */
  function Credit(rewards: seq<Reward>, i: nat): seq<Reward> {
    if i >= |rewards| then rewards else rewards[i := rewards[i].(credited := rewards[i].credited + 1)]
  }

  /** The program goes on after a credit of row i without marking the row. */
  function Forget(rewards: seq<Reward>, i: nat): seq<Reward> {
    if i >= |rewards| then rewards else rewards[i := rewards[i].(unmarked := rewards[i].unmarked + 1)]
  }

  /** The pass credits its first row, then marks it. A credit may fail, or succeed
      with its answer lost; the mark may fail; the program may die anywhere. */
  function SettlementStep(s: State, e: Event): State
    requires IsSettlement(e)
  {
    match e
    case ScanDue(now) =>
      if s.due == [] then s.(due := FindDueRewards(s.rewards, now, DUE_LIMIT), paid := false) else s
    case CreditFirst =>
      if s.due == [] || s.paid then s else s.(rewards := Credit(s.rewards, s.due[0]), paid := true)
    case CreditFails =>
      if s.due == [] || s.paid then s else s.(due := s.due[1..])
    case CreditLost =>
      if s.due == [] || s.paid then s
      else s.(rewards := Forget(Credit(s.rewards, s.due[0]), s.due[0]), due := s.due[1..])
    case SettleFirst =>
      if s.due == [] || !s.paid then s
      else s.(rewards := SettleReward(s.rewards, s.due[0]), due := s.due[1..], paid := false)
    case MarkFails =>
      if s.due == [] || !s.paid then s
      else s.(rewards := Forget(s.rewards, s.due[0]), due := s.due[1..], paid := false)
    case Crash =>
      s.(rewards := if s.due != [] && s.paid then Forget(s.rewards, s.due[0]) else s.rewards,
         due := [], paid := false)
  }

  function Step(s: State, e: Event): State {
    match e
    case Propose(channel, budget, reward, percent) =>
      if budget <= 0.0 || reward <= 0.0 then s
      else s.(rentals := s.rentals +
                [Rental(channel, PendingReview, reward, budget, percent, 0.0, 0, None, 0.0, 0, 0)])
    case RejectRental(r) => s.(rentals := RejectLockRental(s.rentals, r))
    case MarkDone(r, now) => s.(rentals := MarkRentalDoneIfFinished(s.rentals, r, now).0)
    case Reverse(i) =>
      var (rentals, rewards) := ReverseReward(s.rentals, s.rewards, i);
      s.(rentals := rentals, rewards := rewards)
    case ApproveRead(_) => ApprovalStep(s, e)
    case ApproveWrite(_, _) => ApprovalStep(s, e)
    case ReservePool(_, _) => ApprovalStep(s, e)
    case JoinRead(_, _, _) => JoinStep(s, e)
    case JoinRecord(_, _) => JoinStep(s, e)
    case JoinAdd(_) => JoinStep(s, e)
    case ScanDue(_) => SettlementStep(s, e)
    case CreditFirst => SettlementStep(s, e)
    case CreditFails => SettlementStep(s, e)
    case CreditLost => SettlementStep(s, e)
    case SettleFirst => SettlementStep(s, e)
    case MarkFails => SettlementStep(s, e)
    case Crash => SettlementStep(s, e)
  }

  function RunFrom(s: State, events: seq<Event>): State {
    if events == [] then s else Step(RunFrom(s, events[..|events| - 1]), events[|events| - 1])
  }

  const EMPTY: State := State([], [], [], [], [], false)

  function Run(events: seq<Event>): State {
    RunFrom(EMPTY, events)
  }
}
