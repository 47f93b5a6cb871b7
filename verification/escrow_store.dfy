/** The escrow tables as the store updates them in place, with the handlers' loops:
    fraud reversal by user, the settlement pass, slot assignment, owner shares. */
module EscrowStore {
  import opened Text
  import opened Totals
  import opened Escrow
  import EscrowPayments

  datatype Slot = Slot(rental: Option<nat>, assignedOwner: int, adminConfirmed: bool)

  datatype OwnerReward = OwnerReward(rental: nat, slot: nat, owner: int, amount: real, status: RewardStatus)

  // -------------------------------------------------------- reversal by user

  predicate PendingFor(rentals: seq<Rental>, x: Reward, channel: int, user: int) {
    && x.rental < |rentals| && rentals[x.rental].channel == channel
    && x.user == user && x.status == RewardPending
  }

  /** The rows the join query returns. */
  function PendingRows(rentals: seq<Rental>, rewards: seq<Reward>, channel: int, user: int): seq<nat> {
    if rewards == [] then []
    else
      var n := |rewards| - 1;
      PendingRows(rentals, rewards[..n], channel, user)
      + if PendingFor(rentals, rewards[n], channel, user) then [n] else []
  }

  function ReverseRows(rentals: seq<Rental>, rewards: seq<Reward>, rows: seq<nat>): (seq<Rental>, seq<Reward>) {
    if rows == [] then (rentals, rewards)
    else
      var (r, w) := ReverseRows(rentals, rewards, rows[..|rows| - 1]);
      ReverseReward(r, w, rows[|rows| - 1])
  }

  // -------------------------------------------------------------- settlement pass

  /** How the two calls of the pass end for a row. */
  datatype Answers = Paid | Refused | AnswerLost | MarkFailed

  function SettleOne(rewards: seq<Reward>, i: nat, a: Answers): seq<Reward> {
    match a
    case Paid => Escrow.SettleReward(Credit(rewards, i), i)
    case Refused => rewards
    case AnswerLost => Forget(Credit(rewards, i), i)
    case MarkFailed => Forget(Credit(rewards, i), i)
  }

  function SettleRows(rewards: seq<Reward>, rows: seq<nat>, answers: nat -> Answers): seq<Reward>
    decreases |rows|
  {
    if rows == [] then rewards
    else SettleRows(SettleOne(rewards, rows[0], answers(rows[0])), rows[1..], answers)
  }

  /** The pass as events of the interleaved model. */
  function RowEvents(a: Answers): seq<Event> {
    match a
    case Paid => [CreditFirst] + [SettleFirst]
    case Refused => [CreditFails]
    case AnswerLost => [CreditLost]
    case MarkFailed => [CreditFirst] + [MarkFails]
  }

  function PassEvents(rows: seq<nat>, answers: nat -> Answers): seq<Event> {
    if rows == [] then [] else RowEvents(answers(rows[0])) + PassEvents(rows[1..], answers)
  }

  // ------------------------------------------------------------------- expired rentals

  predicate Expired(x: Rental, now: int) {
    x.status == Active && x.endAt.Some? && x.endAt.value <= now
  }

  /** The rows of active rentals whose end date has come. */
  function ExpiredRows(rentals: seq<Rental>, now: int): seq<nat> {
    if rentals == [] then []
    else
      var n := |rentals| - 1;
      ExpiredRows(rentals[..n], now) + if Expired(rentals[n], now) then [n] else []
  }

  function CheckRows(rentals: seq<Rental>, rows: seq<nat>, now: int): seq<Rental> {
    if rows == [] then rentals
    else Escrow.MarkRentalDoneIfFinished(CheckRows(rentals, rows[..|rows| - 1], now), rows[|rows| - 1], now).0
  }

  // -------------------------------------------------------- slots and owner shares

  /** The first `limit` slots that belong to no rental. */
  function FreeSlots(slots: seq<Slot>, limit: nat): seq<nat> {
    if slots == [] then []
    else
      var n := |slots| - 1;
      var before := FreeSlots(slots[..n], limit);
      if |before| < limit && slots[n].rental.None? then before + [n] else before
  }

  function AssignAll(slots: seq<Slot>, rows: seq<nat>, rental: nat, buyer: int): seq<Slot> {
    if rows == [] then slots
    else
      var before := AssignAll(slots, rows[..|rows| - 1], rental, buyer);
      var i := rows[|rows| - 1];
      if i < |before| then before[i := Slot(Some(rental), buyer, false)] else before
  }

  predicate HasOwnerReward(rows: seq<OwnerReward>, rental: nat, slot: nat) {
    exists i | 0 <= i < |rows| :: rows[i].rental == rental && rows[i].slot == slot
  }

  /** One row per taken slot whose owner is known and not yet rewarded. */
  function OwnerRows(
    rows: seq<OwnerReward>, rental: nat, taken: seq<nat>, owners: map<nat, int>, share: real): seq<OwnerReward>
  {
    if taken == [] then rows
    else
      var before := OwnerRows(rows, rental, taken[..|taken| - 1], owners, share);
      var slot := taken[|taken| - 1];
      if slot !in owners || owners[slot] == 0 || HasOwnerReward(before, rental, slot) then before
      else before + [OwnerReward(rental, slot, owners[slot], share, RewardPending)]
  }

  // ------------------------------------------------------------------------- class

  class Store {
    var rentals: seq<Rental>
    var rewards: seq<Reward>
    var slots: seq<Slot>
    var ownerRewards: seq<OwnerReward>

    method TryRecordJoinReward(rental: nat, user: int, amount: real, now: int) returns (firstTime: bool)
      modifies this`rewards
      ensures (rewards, firstTime) == Escrow.TryRecordJoinReward(old(rewards), rental, user, amount, now)
    {
      firstTime := false;
      if !HasReward(rewards, rental, user) {
        rewards := rewards + [Reward(rental, user, amount, RewardPending, now + SETTLEMENT_DELAY, 0, 0)];
        firstTime := true;
      }
    }

    method AddRentalJoinCount(rental: nat, joins: int, cost: real)
      modifies this`rentals
      ensures rentals == Escrow.AddRentalJoinCount(old(rentals), rental, joins, cost)
    {
      if rental < |rentals| {
        var x := rentals[rental];
        rentals := rentals[rental := x.(joins := x.joins + joins, spent := x.spent + cost)];
      }
    }

    method ReverseReward(row: nat)
      modifies this`rentals, this`rewards
      ensures (rentals, rewards) == Escrow.ReverseReward(old(rentals), old(rewards), row)
    {
      if row < |rewards| && rewards[row].status == RewardPending {
        var x := rewards[row];
        rewards := rewards[row := x.(status := RewardReversed)];
        if x.rental < |rentals| {
          rentals := rentals[x.rental := rentals[x.rental].(spent := rentals[x.rental].spent - x.amount)];
        }
      }
    }

    method SettleReward(row: nat)
      modifies this`rewards
      ensures rewards == Escrow.SettleReward(old(rewards), row)
    {
      if row < |rewards| && rewards[row].status == RewardPending {
        rewards := rewards[row := rewards[row].(status := RewardSettled)];
      }
    }

    method MarkRentalDoneIfFinished(rental: nat, now: int) returns (justFinished: bool)
      modifies this`rentals
      ensures (rentals, justFinished) == Escrow.MarkRentalDoneIfFinished(old(rentals), rental, now)
    {
      justFinished := false;
      if rental < |rentals| && rentals[rental].status == Active {
        var x := rentals[rental];
        if x.spent >= x.budget || (x.endAt.Some? && x.endAt.value <= now) {
          rentals := rentals[rental := x.(status := Done, finishes := x.finishes + 1)];
          justFinished := true;
        }
      }
    }

    /** checkExpiredRentals: every rental whose time is over is checked. */
    method CheckExpiredRentals(now: int)
      modifies this`rentals
      ensures rentals == CheckRows(old(rentals), ExpiredRows(old(rentals), now), now)
    {
      var rows := ExpiredRows(rentals, now);
      for i := 0 to |rows|
        invariant rentals == CheckRows(old(rentals), rows[..i], now)
      {
        assert rows[..i + 1][..i] == rows[..i];
        var justFinished := MarkRentalDoneIfFinished(rows[i], now);
      }
      assert rows[..|rows|] == rows;
    }

    /** HandleFraudDetected: every pending reward of the user for the channel. */
    method ReversePendingRewardByUser(channel: int, user: int)
      modifies this`rentals, this`rewards
      ensures (rentals, rewards) == ReverseRows(old(rentals), old(rewards),
                                      PendingRows(old(rentals), old(rewards), channel, user))
    {
      var rows := PendingRows(rentals, rewards, channel, user);
      for i := 0 to |rows|
        invariant (rentals, rewards) == ReverseRows(old(rentals), old(rewards), rows[..i])
      {
        assert rows[..i + 1][..i] == rows[..i];
        ReverseReward(rows[i]);
      }
      assert rows[..|rows|] == rows;
    }

    /** settleDueRewards: credit, then mark. A row whose credit or mark returns an
        error is passed over and stays pending, paid or not. */
    method SettleDueRewards(now: int, answers: nat -> Answers)
      modifies this`rewards
      ensures rewards == SettleRows(old(rewards), FindDueRewards(old(rewards), now, DUE_LIMIT), answers)
    {
      var due := FindDueRewards(rewards, now, DUE_LIMIT);
      for i := 0 to |due|
        invariant SettleRows(rewards, due[i..], answers) == SettleRows(old(rewards), due, answers)
      {
        assert due[i..][1..] == due[i + 1..];
        var row := due[i];
        var a := answers(row);
        if a != Refused {
          rewards := Credit(rewards, row);
        }
        if a == AnswerLost || a == MarkFailed {
          rewards := Forget(rewards, row);
        }
        if a == Paid {
          SettleReward(row);
        }
      }
    }

    method AssignSlotsToRental(rental: nat, buyer: int, count: nat) returns (taken: seq<nat>)
      modifies this`slots
      ensures taken == FreeSlots(old(slots), count)
      ensures slots == AssignAll(old(slots), taken, rental, buyer)
    {
      taken := FreeSlots(slots, count);
      for i := 0 to |taken|
        invariant slots == AssignAll(old(slots), taken[..i], rental, buyer)
      {
        assert taken[..i + 1][..i] == taken[..i];
        if taken[i] < |slots| {
          slots := slots[taken[i] := Slot(Some(rental), buyer, false)];
        }
      }
      assert taken[..|taken|] == taken;
    }

    /** The pool leaves the budget at once; each known owner gets an equal share of it. */
    method PayFreeBotOwners(rental: nat, taken: seq<nat>, owners: map<nat, int>)
      requires rental < |rentals|
      modifies this`rentals, this`ownerRewards
      ensures var x := old(rentals)[rental];
        if PaysOwners(x, |taken|) then
          (rentals == IncrementRentalSpentOnly(old(rentals), rental, x.OwnerPool())
           && ownerRewards == OwnerRows(old(ownerRewards), rental, taken, owners,
                                        x.OwnerPool() / |taken| as real))
        else (rentals == old(rentals) && ownerRewards == old(ownerRewards))
    {
      var x := rentals[rental];
      if |taken| == 0 || x.ownerPercent <= 0.0 {
        return;
      }
      var totalPool := x.OwnerPool();
      var perOwner := totalPool / |taken| as real;
      if perOwner <= 0.0 {
        return;
      }
      rentals := IncrementRentalSpentOnly(rentals, rental, totalPool);
      for i := 0 to |taken|
        invariant rentals == IncrementRentalSpentOnly(old(rentals), rental, totalPool)
        invariant ownerRewards == OwnerRows(old(ownerRewards), rental, taken[..i], owners, perOwner)
      {
        assert taken[..i + 1][..i] == taken[..i];
        var slot := taken[i];
        if slot in owners && owners[slot] != 0 && !HasOwnerReward(ownerRewards, rental, slot) {
          ownerRewards := ownerRewards + [OwnerReward(rental, slot, owners[slot], perOwner, RewardPending)];
        }
      }
      assert taken[..|taken|] == taken;
    }
  }

  // ------------------------------------------------------------------------ proofs

  /** A user's fraud reversal leaves no pending reward of theirs for the channel and
      touches no other row. */
  lemma ReversalClearsUser(rentals: seq<Rental>, rewards: seq<Reward>, channel: int, user: int)
    ensures var (r, w) := ReverseRows(rentals, rewards, PendingRows(rentals, rewards, channel, user));
      && |w| == |rewards|
      && forall i | 0 <= i < |w| ::
        w[i] == if rewards[i].rental < |rentals| && rentals[rewards[i].rental].channel == channel
                   && rewards[i].user == user && rewards[i].status == RewardPending
                then rewards[i].(status := RewardReversed) else rewards[i]
  {
    var rows := PendingRows(rentals, rewards, channel, user);
    PendingRowsAre(rentals, rewards, channel, user);
    ReverseRowsReverses(rentals, rewards, rows);
  }

  lemma {:induction false} PendingRowsAre(rentals: seq<Rental>, rewards: seq<Reward>, channel: int, user: int)
    ensures var rows := PendingRows(rentals, rewards, channel, user);
      forall i: nat :: i in rows <==> i < |rewards| && PendingFor(rentals, rewards[i], channel, user)
  {
    if rewards != [] {
      PendingRowsAre(rentals, rewards[..|rewards| - 1], channel, user);
    }
  }

  lemma {:induction false} ReverseRowsReverses(rentals: seq<Rental>, rewards: seq<Reward>, rows: seq<nat>)
    requires forall i | i in rows :: i < |rewards| && rewards[i].status == RewardPending
    ensures var w := ReverseRows(rentals, rewards, rows).1;
      && |w| == |rewards|
      && forall i: nat | i < |w| ::
        w[i] == if i in rows then rewards[i].(status := RewardReversed) else rewards[i]
  {
    if rows != [] {
      var init, last := rows[..|rows| - 1], rows[|rows| - 1];
      assert forall i: nat :: i in rows <==> i in init || i == last;
      ReverseRowsReverses(rentals, rewards, init);
    }
  }

  lemma CreditThen(s: State, e: Event)
    ensures RunFrom(s, [CreditFirst] + [e]) == Step(Step(s, CreditFirst), e)
  {
    EscrowPayments.RunAfter(s, CreditFirst, [e]);
    EscrowPayments.RunOne(Step(s, CreditFirst), e);
  }

  lemma MarkOrNot(s: State, settled: bool)
    requires s.due != [] && s.paid
    ensures Step(s, if settled then SettleFirst else MarkFails) ==
      s.(rewards := if settled then Escrow.SettleReward(s.rewards, s.due[0]) else Forget(s.rewards, s.due[0]),
         due := s.due[1..], paid := false)
  {}

  /** After a credit the row is settled, or the pass moves on without. */
  lemma CreditedRow(s: State, settled: bool)
    requires s.due != [] && !s.paid && s.due[0] < |s.rewards|
    ensures var rewards, i := Credit(s.rewards, s.due[0]), s.due[0];
      RunFrom(s, [CreditFirst] + [if settled then SettleFirst else MarkFails]) ==
        s.(rewards := if settled then Escrow.SettleReward(rewards, i) else Forget(rewards, i), due := s.due[1..])
  {
    CreditThen(s, if settled then SettleFirst else MarkFails);
    MarkOrNot(Step(s, CreditFirst), settled);
  }

  /** One row's events do to the pass what its answers do to the row. */
  lemma RowIsItsEvents(s: State, a: Answers)
    requires s.due != [] && !s.paid && s.due[0] < |s.rewards|
    ensures RunFrom(s, RowEvents(a)) == s.(rewards := SettleOne(s.rewards, s.due[0], a), due := s.due[1..])
  {
    match a
    case Paid => CreditedRow(s, true);
    case Refused => EscrowPayments.RunOne(s, CreditFails);
    case AnswerLost => EscrowPayments.RunOne(s, CreditLost);
    case MarkFailed => CreditedRow(s, false);
  }

  /** The loop is one of the interleavings: nothing else happening, it does to the
      rewards what its events do. */
  lemma {:induction false} PassIsItsEvents(s: State, answers: nat -> Answers)
    requires !s.paid && forall k | 0 <= k < |s.due| :: s.due[k] < |s.rewards|
    ensures RunFrom(s, PassEvents(s.due, answers)) ==
      s.(rewards := SettleRows(s.rewards, s.due, answers), due := [])
    decreases |s.due|
  {
    if s.due == [] {
      assert s.(due := []) == s;
    } else {
      var a := answers(s.due[0]);
      RowIsItsEvents(s, a);
      PassIsItsEvents(RunFrom(s, RowEvents(a)), answers);
      EscrowPayments.RunSplits(s, RowEvents(a), PassEvents(s.due[1..], answers));
    }
  }

  /** Assignment takes only slots that were free, gives each to this rental, and
      leaves every rented slot alone. */
  lemma AssignmentTakesFreeSlots(slots: seq<Slot>, count: nat, rental: nat, buyer: int)
    ensures var rows := FreeSlots(slots, count);
      var after := AssignAll(slots, rows, rental, buyer);
      && |rows| <= count && |after| == |slots|
      && (forall i: nat | i < |slots| && slots[i].rental.Some? :: i !in rows && after[i] == slots[i])
      && (forall i: nat | i in rows :: i < |slots| && after[i] == Slot(Some(rental), buyer, false))
      && (|rows| < count ==> forall i: nat | i < |slots| :: after[i].rental.Some?)
  {
    FreeSlotsAre(slots, count);
    AssignAllAssigns(slots, FreeSlots(slots, count), rental, buyer);
  }

  lemma {:induction false} FreeSlotsAre(slots: seq<Slot>, limit: nat)
    ensures var rows := FreeSlots(slots, limit);
      && |rows| <= limit
      && (forall i: nat | i in rows :: i < |slots| && slots[i].rental.None?)
      && (|rows| < limit ==> forall i: nat | i < |slots| && slots[i].rental.None? :: i in rows)
  {
    if slots != [] {
      FreeSlotsAre(slots[..|slots| - 1], limit);
    }
  }

  lemma {:induction false} AssignAllAssigns(slots: seq<Slot>, rows: seq<nat>, rental: nat, buyer: int)
    ensures var after := AssignAll(slots, rows, rental, buyer);
      && |after| == |slots|
      && forall i: nat | i < |slots| ::
        after[i] == if i in rows then Slot(Some(rental), buyer, false) else slots[i]
  {
    if rows != [] {
      var init, last := rows[..|rows| - 1], rows[|rows| - 1];
      assert forall i: nat :: i in rows <==> i in init || i == last;
      AssignAllAssigns(slots, init, rental, buyer);
    }
  }

  function Share(rental: nat): OwnerReward -> real {
    (x: OwnerReward) => if x.rental == rental then x.amount else 0.0
  }

  /** What the owners are promised never exceeds the pool taken from the budget. */
  lemma SharesWithinPool(
    rows: seq<OwnerReward>, rental: nat, taken: seq<nat>, owners: map<nat, int>, pool: real)
    requires taken != [] && pool > 0.0
    ensures var promised := SumBy(OwnerRows(rows, rental, taken, owners, pool / |taken| as real), Share(rental))
        - SumBy(rows, Share(rental));
      0.0 <= promised <= pool
  {
    var share := pool / |taken| as real;
    SharesBounded(rows, rental, taken, owners, share);
    TimesIsProduct(|taken|, share);
  }

  lemma {:induction false} SharesBounded(
    rows: seq<OwnerReward>, rental: nat, taken: seq<nat>, owners: map<nat, int>, share: real)
    requires share >= 0.0
    ensures var promised := SumBy(OwnerRows(rows, rental, taken, owners, share), Share(rental))
        - SumBy(rows, Share(rental));
      0.0 <= promised <= Times(|taken|, share)
  {
    if taken != [] {
      var init, slot := taken[..|taken| - 1], taken[|taken| - 1];
      SharesBounded(rows, rental, init, owners, share);
      var before := OwnerRows(rows, rental, init, owners, share);
      if slot in owners && owners[slot] != 0 {
        SumByAppend(before, OwnerReward(rental, slot, owners[slot], share, RewardPending), Share(rental));
      }
    }
  }

  // ------------------------------------------------------------- every owner's share

  /** The taken slot has a known owner who has had no share of this rental for it. */
  predicate OwnerIsDue(rows: seq<OwnerReward>, rental: nat, taken: seq<nat>, owners: map<nat, int>, slot: nat) {
    slot in taken && slot in owners && owners[slot] != 0 && !HasOwnerReward(rows, rental, slot)
  }

  /** From number n on the rows are pending shares of this size, one for each owner due and
      for nobody else. */
  ghost predicate SharesAre(
    out: seq<OwnerReward>, n: nat, rental: nat, due: nat -> bool, owners: map<nat, int>, share: real)
  {
    && (forall slot: nat :: due(slot) <==> exists i :: n <= i < |out| && out[i].slot == slot)
    && (forall i | n <= i < |out| ::
          && out[i].rental == rental && out[i].amount == share && out[i].status == RewardPending
          && out[i].slot in owners && out[i].owner == owners[out[i].slot])
    && (forall i, k | n <= i < k < |out| :: out[i].slot != out[k].slot)
  }

  /** Each known owner of a taken slot who has had no share gets exactly one, nobody else
      gets any, and earlier shares stay. */
  lemma {:induction false} OwnersGetShares(
    rows: seq<OwnerReward>, rental: nat, taken: seq<nat>, owners: map<nat, int>, share: real)
    ensures var out := OwnerRows(rows, rental, taken, owners, share);
      && rows <= out
      && SharesAre(out, |rows|, rental, (slot: nat) => OwnerIsDue(rows, rental, taken, owners, slot), owners, share)
    decreases |taken|
  {
    if taken != [] {
      var init, slot := taken[..|taken| - 1], taken[|taken| - 1];
      OwnersGetShares(rows, rental, init, owners, share);
      var before := OwnerRows(rows, rental, init, owners, share);
      assert taken == init + [slot];
      OneMoreShare(rows, before, rental, init, owners, share, slot);
    }
  }

  lemma OneMoreShare(
    rows: seq<OwnerReward>, before: seq<OwnerReward>, rental: nat, init: seq<nat>, owners: map<nat, int>, share: real,
    slot: nat)
    requires rows <= before
    requires SharesAre(before, |rows|, rental, (s: nat) => OwnerIsDue(rows, rental, init, owners, s), owners, share)
    ensures var out := if slot !in owners || owners[slot] == 0 || HasOwnerReward(before, rental, slot) then before
                       else before + [OwnerReward(rental, slot, owners[slot], share, RewardPending)];
      && rows <= out
      && SharesAre(out, |rows|, rental, (s: nat) => OwnerIsDue(rows, rental, init + [slot], owners, s), owners, share)
  {
    var due, due' := (s: nat) => OwnerIsDue(rows, rental, init, owners, s),
                     (s: nat) => OwnerIsDue(rows, rental, init + [slot], owners, s);
    RewardedBefore(rows, before, rental, slot, due, owners, share);
    assert forall s: nat :: s in init + [slot] <==> s in init || s == slot;
    if due'(slot) && !due(slot) {
      var out := before + [OwnerReward(rental, slot, owners[slot], share, RewardPending)];
      assert out[|before|].slot == slot;
      forall s: nat
        ensures due'(s) <==> exists i :: |rows| <= i < |out| && out[i].slot == s
      {
        if due(s) {
          var i :| |rows| <= i < |before| && before[i].slot == s;
          assert out[i].slot == s;
        }
      }
    } else {
      assert forall s: nat :: due'(s) <==> due(s);
    }
  }

  /** The slot has a share if it had one, or got one since. */
  lemma RewardedBefore(
    rows: seq<OwnerReward>, before: seq<OwnerReward>, rental: nat, slot: nat, due: nat -> bool, owners: map<nat, int>,
    share: real)
    requires rows <= before && SharesAre(before, |rows|, rental, due, owners, share)
    ensures HasOwnerReward(before, rental, slot) <==> HasOwnerReward(rows, rental, slot) || due(slot)
  {
    if due(slot) {
      var i :| |rows| <= i < |before| && before[i].slot == slot;
      assert before[i].rental == rental;
    }
    if HasOwnerReward(rows, rental, slot) {
      var i :| 0 <= i < |rows| && rows[i].rental == rental && rows[i].slot == slot;
      assert before[i] == rows[i];
    }
  }

  // --------------------------------------------------------------- every expired rental

  lemma {:induction false} ExpiredRowsAre(rentals: seq<Rental>, now: int)
    ensures forall i: nat :: i in ExpiredRows(rentals, now) <==> i < |rentals| && Expired(rentals[i], now)
  {
    if rentals != [] {
      ExpiredRowsAre(rentals[..|rentals| - 1], now);
    }
  }

  lemma {:induction false} CheckRowsFinish(rentals: seq<Rental>, rows: seq<nat>, now: int)
    requires forall i | i in rows :: i < |rentals| && Expired(rentals[i], now)
    ensures var out := CheckRows(rentals, rows, now);
      && |out| == |rentals|
      && forall i: nat | i < |out| ::
           if i in rows then out[i] == rentals[i].(status := Done, finishes := out[i].finishes)
           else out[i] == rentals[i]
    decreases |rows|
  {
    if rows != [] {
      var init, last := rows[..|rows| - 1], rows[|rows| - 1];
      assert rows == init + [last];
      CheckRowsFinish(rentals, init, now);
    }
  }

  /** The scan finishes every active rental whose end date has come and touches no other. */
  lemma ScanFinishesExpired(rentals: seq<Rental>, now: int)
    ensures var out := CheckRows(rentals, ExpiredRows(rentals, now), now);
      && |out| == |rentals|
      && forall i: nat | i < |out| ::
           if Expired(rentals[i], now) then out[i] == rentals[i].(status := Done, finishes := out[i].finishes)
           else out[i] == rentals[i]
  {
    ExpiredRowsAre(rentals, now);
    CheckRowsFinish(rentals, ExpiredRows(rentals, now), now);
  }

  // ------------------------------------------------------------------- every due reward

  /** The scan leaves out a reward that is due only for want of room. */
  lemma {:induction false} DueIsComplete(rewards: seq<Reward>, now: int, limit: nat)
    ensures var due := FindDueRewards(rewards, now, limit);
      |due| < limit ==>
        forall i: nat :: i in due <==>
          i < |rewards| && rewards[i].status == RewardPending && rewards[i].settleAt <= now
  {
    if rewards != [] {
      DueIsComplete(rewards[..|rewards| - 1], now, limit);
    }
  }

  /** What the pass makes of one row. */
  function Handled(x: Reward, a: Answers): Reward {
    match a
    case Paid => x.(status := RewardSettled, credited := x.credited + 1)
    case Refused => x
    case AnswerLost => x.(credited := x.credited + 1, unmarked := x.unmarked + 1)
    case MarkFailed => x.(credited := x.credited + 1, unmarked := x.unmarked + 1)
  }

  lemma OneRowHandled(rewards: seq<Reward>, i: nat, a: Answers)
    requires i < |rewards| && rewards[i].status == RewardPending
    ensures SettleOne(rewards, i, a) == rewards[i := Handled(rewards[i], a)]
  {}

  lemma {:induction false} RowsHandled(rewards: seq<Reward>, rows: seq<nat>, answers: nat -> Answers)
    requires EscrowPayments.Distinct(rows)
    requires forall k | 0 <= k < |rows| :: rows[k] < |rewards| && rewards[rows[k]].status == RewardPending
    ensures var out := SettleRows(rewards, rows, answers);
      && |out| == |rewards|
      && forall i: nat | i < |out| :: out[i] == if i in rows then Handled(rewards[i], answers(i)) else rewards[i]
    decreases |rows|
  {
    if rows != [] {
      var next := SettleOne(rewards, rows[0], answers(rows[0]));
      OneRowHandled(rewards, rows[0], answers(rows[0]));
      RestDistinct(rows);
      RowsHandled(next, rows[1..], answers);
      assert rows == [rows[0]] + rows[1..];
    }
  }

  lemma RestDistinct(rows: seq<nat>)
    requires rows != [] && EscrowPayments.Distinct(rows)
    ensures EscrowPayments.Distinct(rows[1..]) && rows[0] !in rows[1..]
  {}

  /** A pass credits and marks as answered each reward that is due, at most two hundred,
      and touches no other; when fewer are due, it takes them all. */
  lemma PassHandlesTheDue(rewards: seq<Reward>, now: int, answers: nat -> Answers)
    ensures var due, out := FindDueRewards(rewards, now, DUE_LIMIT), SettleRows(rewards,
                              FindDueRewards(rewards, now, DUE_LIMIT), answers);
      && |out| == |rewards| && |due| <= 200
      && (forall i: nat | i < |out| :: out[i] == if i in due then Handled(rewards[i], answers(i)) else rewards[i])
      && (|due| < 200 ==> forall i: nat :: i in due <==>
            i < |rewards| && rewards[i].status == RewardPending && rewards[i].settleAt <= now)
  {
    EscrowPayments.DueAreDistinctPending(rewards, now, DUE_LIMIT);
    DueIsComplete(rewards, now, DUE_LIMIT);
    RowsHandled(rewards, FindDueRewards(rewards, now, DUE_LIMIT), answers);
  }
}
