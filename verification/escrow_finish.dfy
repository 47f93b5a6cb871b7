/** How often a rental is paid out as finished: exactly as often as its state and its
    approvals under way still allow. */
module EscrowFinish {
  import opened Text
  import opened Escrow
  import opened EscrowPayments

  // ------------------------------------------------------------- what can still come

  /** Approvals of r that have read "pending review" and not yet written. */
  function ReadCount(approvals: seq<Approval>, r: nat): nat {
    if approvals == [] then 0
    else ReadCount(approvals[..|approvals| - 1], r) + Counts(approvals[|approvals| - 1], r)
  }

  function Counts(a: Approval, r: nat): nat {
    if a.rental == r && a.stage == StatusRead then 1 else 0
  }

  /** Finishes there have been, and those that may still come. */
  function Potential(s: State, r: nat): nat
    requires r < |s.rentals|
  {
    s.rentals[r].finishes + (if s.rentals[r].status == Active then 1 else 0) + ReadCount(s.approvals, r)
  }

  predicate Reviewed(s: State, r: nat) {
    r < |s.rentals| && s.rentals[r].status != PendingReview
  }

  lemma ReadAppended(approvals: seq<Approval>, a: Approval, r: nat)
    ensures ReadCount(approvals + [a], r) == ReadCount(approvals, r) + Counts(a, r)
  {
    assert (approvals + [a])[..|approvals|] == approvals;
  }

  lemma {:induction false} ReadReplaced(approvals: seq<Approval>, i: nat, a: Approval, r: nat)
    requires i < |approvals|
    ensures ReadCount(approvals[i := a], r) == ReadCount(approvals, r) - Counts(approvals[i], r) + Counts(a, r)
    decreases |approvals|
  {
    var n := |approvals| - 1;
    if i < n {
      ReadReplaced(approvals[..n], i, a, r);
      assert approvals[i := a][..n] == approvals[..n][i := a];
    } else {
      assert approvals[i := a][..n] == approvals[..n];
    }
  }

  lemma {:induction false} OneIsRead(approvals: seq<Approval>, r: nat) returns (i: nat)
    requires ReadCount(approvals, r) > 0
    ensures i < |approvals| && Counts(approvals[i], r) == 1
    decreases |approvals|
  {
    var n := |approvals| - 1;
    if Counts(approvals[n], r) == 1 {
      i := n;
    } else {
      i := OneIsRead(approvals[..n], r);
    }
  }

  /** No step adds to what can still come, once the rental is past review. */
  lemma ApprovalSpendsPotential(s: State, e: Event, r: nat)
    requires Reviewed(s, r) && (e.ApproveRead? || e.ApproveWrite? || e.ReservePool?)
    ensures Reviewed(ApprovalStep(s, e), r) && Potential(ApprovalStep(s, e), r) <= Potential(s, r)
  {
    var t := ApprovalStep(s, e);
    if t != s {
      if e.ApproveRead? {
        ReadAppended(s.approvals, t.approvals[|s.approvals|], r);
      } else {
        ReadReplaced(s.approvals, e.approval, t.approvals[e.approval], r);
      }
    }
  }

  lemma OthersKeepApprovals(s: State, e: Event)
    requires !e.ApproveRead? && !e.ApproveWrite? && !e.ReservePool?
    ensures Step(s, e).approvals == s.approvals
  {}

  lemma StepSpendsPotential(s: State, e: Event, r: nat)
    requires Reviewed(s, r)
    ensures Reviewed(Step(s, e), r) && Potential(Step(s, e), r) <= Potential(s, r)
  {
    if e.ApproveRead? || e.ApproveWrite? || e.ReservePool? {
      ApprovalSpendsPotential(s, e, r);
    } else {
      OthersKeepApprovals(s, e);
    }
  }

  lemma {:induction false} RunSpendsPotential(s: State, events: seq<Event>, r: nat)
    requires Reviewed(s, r)
    ensures Reviewed(RunFrom(s, events), r) && Potential(RunFrom(s, events), r) <= Potential(s, r)
    decreases |events|
  {
    if events != [] {
      RunSpendsPotential(s, events[..|events| - 1], r);
      StepSpendsPotential(RunFrom(s, events[..|events| - 1]), events[|events| - 1], r);
    }
  }

  // ------------------------------------------------------------ runs that use it all up

  /** What the clock showed at an event that reads it. */
  function TimeOf(e: Event): Option<int> {
    match e
    case ApproveWrite(_, now) => Some(now)
    case JoinRead(_, _, now) => Some(now)
    case JoinRecord(_, now) => Some(now)
    case MarkDone(_, now) => Some(now)
    case ScanDue(now) => Some(now)
    case _ => None
  }

  /** The clock shows at least `from`, and never steps back. */
  predicate Forward(events: seq<Event>, from: int) {
    && (forall i | 0 <= i < |events| && TimeOf(events[i]).Some? :: from <= TimeOf(events[i]).value)
    && forall i, j | 0 <= i < j < |events| && TimeOf(events[i]).Some? && TimeOf(events[j]).Some? ::
         TimeOf(events[i]).value <= TimeOf(events[j]).value
  }

  predicate Dated(x: Rental) {
    x.status == Active ==> x.endAt.Some?
  }

  lemma {:induction false} ActiveIsDated(events: seq<Event>, r: nat)
    requires r < |Run(events).rentals|
    ensures Dated(Run(events).rentals[r])
    decreases |events|
  {
    if events != [] {
      var s := Run(events[..|events| - 1]);
      if r < |s.rentals| {
        ActiveIsDated(events[..|events| - 1], r);
      }
      StepKeepsDated(s, events[|events| - 1], r);
    }
  }

  lemma StepKeepsDated(s: State, e: Event, r: nat)
    requires r < |Step(s, e).rentals| && (r < |s.rentals| ==> Dated(s.rentals[r]))
    ensures Dated(Step(s, e).rentals[r])
  {}

  function Max(a: int, b: int): int {
    if a < b then b else a
  }

  /** An active rental is finished when its time is over. */
  lemma FinishActive(s: State, r: nat, now: int)
    requires r < |s.rentals| && s.rentals[r].status == Active && s.rentals[r].endAt.Some?
    requires s.rentals[r].endAt.value <= now
    ensures var t := Step(s, MarkDone(r, now));
      && r < |t.rentals| && t.rentals[r].finishes == s.rentals[r].finishes + 1 && t.rentals[r].status == Done
      && t.approvals == s.approvals
  {}

  lemma WriteRead(s: State, r: nat, a: nat, now: int)
    requires r < |s.rentals| && a < |s.approvals| && Counts(s.approvals[a], r) == 1
    requires s.rentals[r].status != Active
    ensures var t := Step(s, ApproveWrite(a, now));
      && r < |t.rentals| && t.rentals[r].status == Active && Dated(t.rentals[r])
      && t.rentals[r].finishes == s.rentals[r].finishes
      && ReadCount(t.approvals, r) == ReadCount(s.approvals, r) - 1
  {
    ReadReplaced(s.approvals, a, s.approvals[a].(stage := StatusWritten), r);
  }

  /** Everything that may still come can come, with the clock going forward. */
  lemma {:induction false} UseItUp(s: State, r: nat, from: int) returns (events: seq<Event>)
    requires r < |s.rentals| && Dated(s.rentals[r])
    ensures Forward(events, from)
    ensures r < |RunFrom(s, events).rentals| && RunFrom(s, events).rentals[r].finishes == Potential(s, r)
    decreases ReadCount(s.approvals, r), if s.rentals[r].status == Active then 1 else 0
  {
    if s.rentals[r].status == Active {
      var now := Max(from, s.rentals[r].endAt.value);
      FinishActive(s, r, now);
      var rest := UseItUp(Step(s, MarkDone(r, now)), r, now);
      events := [MarkDone(r, now)] + rest;
      RunAfter(s, MarkDone(r, now), rest);
    } else if ReadCount(s.approvals, r) > 0 {
      var a := OneIsRead(s.approvals, r);
      WriteRead(s, r, a, from);
      var rest := UseItUp(Step(s, ApproveWrite(a, from)), r, from);
      events := [ApproveWrite(a, from)] + rest;
      RunAfter(s, ApproveWrite(a, from), rest);
    } else {
      events := [];
    }
  }

  // ----------------------------------------------------------------------- main result

  predicate FinishesOnce(s: State, r: nat, more: seq<Event>) {
    r < |RunFrom(s, more).rentals| ==> RunFrom(s, more).rentals[r].finishes <= 1
  }

  /** A rental past review finishes at most once, however its run goes on with a clock
      that goes forward, if and only if its finishes so far, one if it is active, and
      its approvals that have read and not written come to at most one. */
  lemma {:induction false} FinishesOnceIff(events: seq<Event>, r: nat, now: int)
    requires Reviewed(Run(events), r)
    ensures (forall more | Forward(more, now) :: FinishesOnce(Run(events), r, more)) <==>
      Potential(Run(events), r) <= 1
  {
    var s := Run(events);
    if Potential(s, r) <= 1 {
      forall more | Forward(more, now)
        ensures FinishesOnce(s, r, more)
      {
        RunSpendsPotential(s, more, r);
      }
    } else {
      ActiveIsDated(events, r);
      var more := UseItUp(s, r, now);
      assert !FinishesOnce(s, r, more);
    }
  }

  // ------------------------------------------------------------------- whole runs

  /** MarkRentalDoneIfFinished never returns true more often than the rental was
      approved; an active rental still has one to go. */
  predicate FinishesWithin(r: Rental) {
    r.finishes + (if r.status == Active then 1 else 0) <= r.approvals
  }

  lemma {:induction false} FinishesAtMostApprovals(events: seq<Event>, r: nat)
    requires r < |Run(events).rentals|
    ensures FinishesWithin(Run(events).rentals[r])
  {
    if events != [] {
      var s := Run(events[..|events| - 1]);
      if r < |s.rentals| {
        FinishesAtMostApprovals(events[..|events| - 1], r);
      }
      StepFinishesWithin(s, events[|events| - 1], r);
    }
  }

  lemma StepFinishesWithin(s: State, e: Event, r: nat)
    requires r < |Step(s, e).rentals| && (r < |s.rentals| ==> FinishesWithin(s.rentals[r]))
    ensures FinishesWithin(Step(s, e).rentals[r])
  {}

  /** The approval handler writes only what it has just read: still pending review. */
  predicate SoleApproval(s: State, e: Event) {
    e.ApproveWrite? && e.approval < |s.approvals| && s.approvals[e.approval].stage == StatusRead ==>
      var r := s.approvals[e.approval].rental;
      r < |s.rentals| ==> s.rentals[r].status == PendingReview
  }

  predicate SoleApprovals(events: seq<Event>) {
    forall i | 0 <= i < |events| :: SoleApproval(Run(events[..i]), events[i])
  }

  lemma {:induction false} SoleApprovalsPrefix(events: seq<Event>, n: nat)
    requires SoleApprovals(events) && n <= |events|
    ensures SoleApprovals(events[..n])
  {
    forall i | 0 <= i < n ensures SoleApproval(Run(events[..n][..i]), events[..n][i]) {
      assert events[..n][..i] == events[..i];
    }
  }

  predicate ApprovedOnce(r: Rental) {
    r.approvals <= 1 && (r.status == PendingReview ==> r.approvals == 0)
  }

  lemma {:induction false} ApprovedAtMostOnce(events: seq<Event>, r: nat)
    requires SoleApprovals(events) && r < |Run(events).rentals|
    ensures ApprovedOnce(Run(events).rentals[r])
  {
    if events != [] {
      var n := |events| - 1;
      var s := Run(events[..n]);
      SoleApprovalsPrefix(events, n);
      if r < |s.rentals| {
        ApprovedAtMostOnce(events[..n], r);
      }
      assert SoleApproval(s, events[n]);
      StepApprovedOnce(s, events[n], r);
    }
  }

  lemma StepApprovedOnce(s: State, e: Event, r: nat)
    requires r < |Step(s, e).rentals| && (r < |s.rentals| ==> ApprovedOnce(s.rentals[r])) && SoleApproval(s, e)
    ensures ApprovedOnce(Step(s, e).rentals[r])
  {}

  /** When approval happens only from pending review, a rental finishes at most once. */
  lemma {:induction false} FinishesAtMostOnce(events: seq<Event>, r: nat)
    requires SoleApprovals(events) && r < |Run(events).rentals|
    ensures Run(events).rentals[r].finishes <= 1
  {
    FinishesAtMostApprovals(events, r);
    ApprovedAtMostOnce(events, r);
  }

  /** Two admins who both read "pending review" can make one rental finish twice. */
  lemma TwoAdminsFinishTwice() returns (more: seq<Event>)
    ensures var events := [Propose(7, 10.0, 1.0, 5.0), ApproveRead(0), ApproveRead(0)] + more;
      Forward(more, 0) && |Run(events).rentals| > 0 && Run(events).rentals[0].finishes == 2
  {
    var start := [Propose(7, 10.0, 1.0, 5.0), ApproveRead(0), ApproveRead(0)];
    ThreeSteps(EMPTY, start[0], start[1], start[2]);
    var read := Approval(0, StatusRead);
    var x := Rental(7, PendingReview, 1.0, 10.0, 5.0, 0.0, 0, None, 0.0, 0, 0);
    var s := State([x], [], [], [read] + [read], [], false);
    assert Step(EMPTY, start[0]) == State([x], [], [], [], [], false);
    assert Run(start) == s;
    ReadAppended([read], read, 0);
    ReadAppended([], read, 0);
    assert [] + [read] == [read];
    more := UseItUp(s, 0, 0);
    RunSplits(EMPTY, start, more);
  }

  /** A run spelled out state by state. */
  lemma {:induction false} RunOfSteps(events: seq<Event>, states: seq<State>)
    requires |states| == |events| + 1 && states[0] == EMPTY
    requires forall i | 0 <= i < |events| :: states[i + 1] == Step(states[i], events[i])
    ensures forall i | 0 <= i <= |events| :: Run(events[..i]) == states[i]
    ensures Run(events) == states[|events|]
  {
    if events != [] {
      var n := |events| - 1;
      RunOfSteps(events[..n], states[..n + 1]);
      forall i | 0 <= i <= |events| ensures Run(events[..i]) == states[i] {
        if i <= n {
          assert events[..n][..i] == events[..i];
        } else {
          assert events[..i] == events;
        }
      }
    }
  }
}
