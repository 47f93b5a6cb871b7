/** Planner safety over every run: one open reservation a pair of campaign and
    channel, every slot inside the daily window and a full cycle after all earlier
    ones of the pair. */
module SchedulerPlan {
  import opened Text
  import opened Schedule
  import opened Scheduler
  import opened SchedulerLife

  predicate SamePair(r: Reservation, q: Reservation) {
    r.campaign == q.campaign && r.channel == q.channel
  }

  predicate UniqueOpen(rs: seq<Reservation>) {
    forall i, k | 0 <= i < k < |rs| && SamePair(rs[i], rs[k]) :: !(rs[i].Open() && rs[k].Open())
  }

  /** Row i is an earlier one of row k's pair. */
  predicate Earlier(rs: seq<Reservation>, i: int, k: nat)
    requires k < |rs|
  {
    0 <= i < k && SamePair(rs[i], rs[k])
  }

  ghost predicate HasEarlier(rs: seq<Reservation>, k: nat)
    requires k < |rs|
  {
    exists i :: Earlier(rs, i, k)
  }

  /** Row k lies in the window of cm: a cycle of `ad` after the latest earlier row of
      its pair, or at the window's start if it is the pair's first. */
  ghost predicate Spaced(cm: Campaign, ad: Ad, start: Instant, rs: seq<Reservation>, k: nat)
    requires k < |rs|
  {
    && rs[k].campaign == cm.id && rs[k].ad == ad.id
    && InDailyWindow(rs[k].scheduledAt, cm.window)
    && (forall i | Earlier(rs, i, k) :: rs[i].scheduledAt + CycleGap(cm, ad) <= rs[k].scheduledAt)
    && (if HasEarlier(rs, k)
        then exists i :: Earlier(rs, i, k) && rs[i].scheduledAt + CycleGap(cm, ad) == rs[k].scheduledAt
        else rs[k].scheduledAt == start)
  }

  /** A pass over this campaign's settings at this time could have made row k. */
  ghost predicate PlannedFor(cm: Campaign, now: Instant, rs: seq<Reservation>, k: nat)
    requires k < |rs|
  {
    && cm.intervalMinutes >= 1 && cm.ads != [] && InDailyWindow(now, cm.window)
    && Spaced(cm, CurrentAd(cm, now), CurrentWindowStart(now, cm.window), rs, k)
  }

  ghost predicate PlannedBy(e: Event, rs: seq<Reservation>, k: nat)
    requires k < |rs|
  {
    e.Plan? && exists c | 0 <= c < |e.campaigns| :: PlannedFor(e.campaigns[c], e.now, rs, k)
  }

  // ------------------------------------------------------------------ the last slot

  /** It is the latest slot of the pair, and there is one exactly when the pair has a
      row. */
  lemma {:induction false} LastIsLatest(rs: seq<Reservation>, campaign: string, channel: string)
    ensures var last := LastReservationAt(rs, campaign, channel);
      && (last.Some? <==> exists i :: 0 <= i < |rs| && rs[i].For(campaign, channel))
      && (last.Some? ==> exists i :: 0 <= i < |rs| && rs[i].For(campaign, channel) && rs[i].scheduledAt == last.value)
      && (last.Some? ==> forall i | 0 <= i < |rs| && rs[i].For(campaign, channel) :: rs[i].scheduledAt <= last.value)
    decreases |rs|
  {
    if rs != [] {
      var n := |rs| - 1;
      var before := rs[..n];
      LastIsLatest(before, campaign, channel);
      assert forall i | 0 <= i < n :: before[i] == rs[i];
      var was := LastReservationAt(before, campaign, channel);
      if was.Some? {
        var i :| 0 <= i < |before| && before[i].For(campaign, channel) && before[i].scheduledAt == was.value;
        assert rs[i].For(campaign, channel) && rs[i].scheduledAt == was.value;
      }
      if rs[n].For(campaign, channel) {
        assert LastReservationAt(rs, campaign, channel).Some?;
      }
    }
  }

  // ------------------------------------------------------------------------ one pass

  /** Rows were only appended, all of them spaced so, at most one open a pair. */
  ghost predicate PlansOn(cm: Campaign, ad: Ad, start: Instant, rs: seq<Reservation>, qs: seq<Reservation>) {
    && rs <= qs
    && (UniqueOpen(rs) ==> UniqueOpen(qs))
    && forall k: nat | |rs| <= k < |qs| :: Spaced(cm, ad, start, qs, k)
  }

  /** A row for an idle pair, at the time due for it and inside the window. */
  lemma NextRowIsSpaced(rs: seq<Reservation>, cm: Campaign, ad: Ad, start: Instant, r: Reservation)
    requires r.campaign == cm.id && r.ad == ad.id && !HasOpen(rs, cm.id, r.channel)
    requires r.scheduledAt == NextDue(rs, cm, ad, r.channel, start) && InDailyWindow(r.scheduledAt, cm.window)
    ensures PlansOn(cm, ad, start, rs, rs + [r])
  {
    var qs := rs + [r];
    LastIsLatest(rs, cm.id, r.channel);
    forall i | Earlier(qs, i, |rs|)
      ensures !qs[i].Open() && qs[i].scheduledAt + CycleGap(cm, ad) <= r.scheduledAt
    {
      assert rs[i].For(cm.id, r.channel);
    }
    var last := LastReservationAt(rs, cm.id, r.channel);
    if last.Some? {
      var i :| 0 <= i < |rs| && rs[i].For(cm.id, r.channel) && rs[i].scheduledAt == last.value;
      assert Earlier(qs, i, |rs|);
    }
  }

  lemma ChannelPlansSafely(s: State, cm: Campaign, ad: Ad, channel: string, start: Instant, now: Instant, lead: int,
                           newId: nat -> Uuid)
    ensures PlansOn(cm, ad, start, s.reservations,
                    PlanChannel(s, cm, ad, channel, start, now, lead, newId).reservations)
  {
    var rs, id := s.reservations, newId(|s.reservations|);
    if MayReserve(rs, cm, ad, channel, start, now, lead) && IndexOf(rs, id) == |rs| {
      var due := NextDue(rs, cm, ad, channel, start);
      NextRowIsSpaced(rs, cm, ad, start, NewReservation(id, cm.id, ad.id, channel, due));
    }
  }

  /** Rows keep their pair, ad and time, and none reopens. */
  predicate SameSlots(rs: seq<Reservation>, qs: seq<Reservation>) {
    && |rs| <= |qs|
    && forall i | 0 <= i < |rs| ::
         SamePair(rs[i], qs[i]) && qs[i].ad == rs[i].ad && qs[i].scheduledAt == rs[i].scheduledAt
         && (qs[i].Open() ==> rs[i].Open())
  }

  lemma SpacedStays(cm: Campaign, ad: Ad, start: Instant, rs: seq<Reservation>, qs: seq<Reservation>, k: nat)
    requires k < |rs| && SameSlots(rs, qs) && Spaced(cm, ad, start, rs, k)
    ensures Spaced(cm, ad, start, qs, k)
  {
    forall i
      ensures Earlier(qs, i, k) <==> Earlier(rs, i, k)
    {}
    if HasEarlier(rs, k) {
      var i :| Earlier(rs, i, k) && rs[i].scheduledAt + CycleGap(cm, ad) == rs[k].scheduledAt;
      assert Earlier(qs, i, k);
    }
  }

  lemma PrefixSpaced(cm: Campaign, ad: Ad, start: Instant, rs: seq<Reservation>, qs: seq<Reservation>, k: nat)
    requires k < |rs| && rs <= qs && Spaced(cm, ad, start, rs, k)
    ensures Spaced(cm, ad, start, qs, k)
  {
    SpacedStays(cm, ad, start, rs, qs, k);
  }

  lemma PlansOnChain(
    cm: Campaign, ad: Ad, start: Instant, rs: seq<Reservation>, us: seq<Reservation>, qs: seq<Reservation>)
    requires PlansOn(cm, ad, start, rs, us) && PlansOn(cm, ad, start, us, qs)
    ensures PlansOn(cm, ad, start, rs, qs)
  {
    forall k: nat | |rs| <= k < |qs|
      ensures Spaced(cm, ad, start, qs, k)
    {
      if k < |us| {
        PrefixSpaced(cm, ad, start, us, qs, k);
      }
    }
  }

  lemma {:induction false} ChannelsPlanSafely(
    s: State, cm: Campaign, ad: Ad, channels: seq<string>, start: Instant, now: Instant, lead: int, newId: nat -> Uuid)
    ensures PlansOn(cm, ad, start, s.reservations,
                    PlanChannels(s, cm, ad, channels, start, now, lead, newId).reservations)
    decreases |channels|
  {
    if channels != [] {
      var most, last := channels[..|channels| - 1], channels[|channels| - 1];
      var u := PlanChannels(s, cm, ad, most, start, now, lead, newId);
      ChannelsPlanSafely(s, cm, ad, most, start, now, lead, newId);
      ChannelPlansSafely(u, cm, ad, last, start, now, lead, newId);
      PlansOnChain(cm, ad, start, s.reservations, u.reservations,
                   PlanChannel(u, cm, ad, last, start, now, lead, newId).reservations);
    }
  }

  lemma PlannedStays(e: Event, rs: seq<Reservation>, qs: seq<Reservation>, k: nat)
    requires k < |rs| && SameSlots(rs, qs) && PlannedBy(e, rs, k)
    ensures PlannedBy(e, qs, k)
  {
    var c :| 0 <= c < |e.campaigns| && PlannedFor(e.campaigns[c], e.now, rs, k);
    var cm := e.campaigns[c];
    SpacedStays(cm, CurrentAd(cm, e.now), CurrentWindowStart(e.now, cm.window), rs, qs, k);
    assert PlannedFor(e.campaigns[c], e.now, qs, k);
  }

  lemma UniqueStays(rs: seq<Reservation>, qs: seq<Reservation>)
    requires SameSlots(rs, qs) && |rs| == |qs| && UniqueOpen(rs)
    ensures UniqueOpen(qs)
  {}

  lemma CampaignPlansSafely(s: State, cm: Campaign, now: Instant, lead: int, newId: nat -> Uuid)
    ensures var rs, qs := s.reservations, PlanCampaign(s, cm, now, lead, newId).reservations;
      && SameSlots(rs, qs)
      && (UniqueOpen(rs) ==> UniqueOpen(qs))
      && forall k: nat | |rs| <= k < |qs| :: PlannedFor(cm, now, qs, k)
  {
    if !InDailyWindow(now, cm.window) {
      var qs := CutOffCampaign(s, cm.id, cm.found).reservations;
      if UniqueOpen(s.reservations) {
        UniqueStays(s.reservations, qs);
      }
    } else if cm.ads != [] {
      var ad, start := CurrentAd(cm, now), CurrentWindowStart(now, cm.window);
      ChannelsPlanSafely(s, cm, ad, cm.channels, start, now, lead, newId);
      assert PlansOn(cm, ad, start, s.reservations, PlanCampaign(s, cm, now, lead, newId).reservations);
    }
  }

  lemma {:induction false} PassPlansSafely(
    s: State, campaigns: seq<Campaign>, now: Instant, lead: int, newId: nat -> Uuid)
    ensures var rs, qs := s.reservations, PlanCampaigns(s, campaigns, now, lead, newId).reservations;
      && SameSlots(rs, qs)
      && (UniqueOpen(rs) ==> UniqueOpen(qs))
      && forall k: nat | |rs| <= k < |qs| :: PlannedBy(Plan(campaigns, now, lead, newId), qs, k)
    decreases |campaigns|
  {
    if campaigns != [] {
      var n := |campaigns| - 1;
      var u := PlanCampaigns(s, campaigns[..n], now, lead, newId);
      PassPlansSafely(s, campaigns[..n], now, lead, newId);
      CampaignPlansSafely(u, campaigns[n], now, lead, newId);
      var rs, us, qs := s.reservations, u.reservations, PlanCampaign(u, campaigns[n], now, lead, newId).reservations;
      var e := Plan(campaigns, now, lead, newId);
      forall k: nat | |rs| <= k < |qs|
        ensures PlannedBy(e, qs, k)
      {
        if k < |us| {
          var e' := Plan(campaigns[..n], now, lead, newId);
          PlannedStays(e', us, qs, k);
          var c :| 0 <= c < n && PlannedFor(e'.campaigns[c], now, qs, k);
          assert e.campaigns[c] == e'.campaigns[c];
        } else {
          assert PlannedFor(e.campaigns[n], now, qs, k);
        }
      }
    }
  }

  // ----------------------------------------------------------------------------- runs

  lemma GrowsKeepsSlots(rs: seq<Reservation>, qs: seq<Reservation>)
    requires Grows(rs, qs)
    ensures SameSlots(rs, qs)
  {}

  lemma HandlersAddNoRows(s: State, job: Job, env: Env)
    ensures |Handle(s, job, env).0.reservations| == |s.reservations|
  {
    match job.kind
    case SendAd =>
    case SendReply => RepliesAddNoRows(s, job, env);
    case DeletePost =>
    case Reminder =>
  }

  lemma RepliesAddNoRows(s: State, job: Job, env: Env)
    ensures |SendReplyHandler(s, job, env).0.reservations| == |s.reservations|
  {}

  lemma OnlyPlansAddRows(s: State, e: Event)
    requires !e.Plan?
    ensures |Step(s, e).reservations| == |s.reservations|
  {
    if e.RunJob? && e.job < |s.jobs| {
      HandlersAddNoRows(s, s.jobs[e.job], e.env);
    }
  }

  lemma StepPlansSafely(s: State, e: Event)
    requires Life(s) && UniqueOpen(s.reservations)
    ensures var rs, qs := s.reservations, Step(s, e).reservations;
      && SameSlots(rs, qs) && UniqueOpen(qs)
      && forall k: nat | |rs| <= k < |qs| :: PlannedBy(e, qs, k)
  {
    StepKeepsLife(s, e);
    GrowsKeepsSlots(s.reservations, Step(s, e).reservations);
    if e.Plan? {
      PassPlansSafely(s, e.campaigns, e.now, e.reminderLead, e.newId);
    } else {
      OnlyPlansAddRows(s, e);
      UniqueStays(s.reservations, Step(s, e).reservations);
    }
  }

  ghost predicate Made(events: seq<Event>, rs: seq<Reservation>, k: nat)
    requires k < |rs|
  {
    exists n :: 0 <= n < |events| && PlannedBy(events[n], rs, k)
  }

  ghost predicate AllPlanned(events: seq<Event>, rs: seq<Reservation>) {
    forall k: nat | k < |rs| :: Made(events, rs, k)
  }

  lemma AllPlannedStays(events: seq<Event>, e: Event, rs: seq<Reservation>, qs: seq<Reservation>)
    requires AllPlanned(events, rs) && SameSlots(rs, qs)
    requires forall k: nat | |rs| <= k < |qs| :: PlannedBy(e, qs, k)
    ensures AllPlanned(events + [e], qs)
  {
    var all := events + [e];
    forall k: nat | k < |qs|
      ensures Made(all, qs, k)
    {
      if k < |rs| {
        assert Made(events, rs, k);
        var n :| 0 <= n < |events| && PlannedBy(events[n], rs, k);
        PlannedStays(events[n], rs, qs, k);
        assert all[n] == events[n];
      } else {
        assert all[|events|] == e;
      }
    }
  }

  /** In every reachable state each pair has at most one open reservation, and every
      reservation was made by some pass of the run: in the daily window that pass saw,
      and one cycle of its current ad after all earlier slots of the pair. */
  lemma {:induction false} RunPlansSafely(events: seq<Event>)
    ensures var rs := RunFrom(EMPTY, events).reservations; UniqueOpen(rs) && AllPlanned(events, rs)
    decreases |events|
  {
    if events != [] {
      var n := |events| - 1;
      RunPlansSafely(events[..n]);
      RunKeepsLife(EMPTY, events[..n]);
      OneMorePlansSafely(RunFrom(EMPTY, events[..n]), events[..n], events[n]);
      assert events[..n] + [events[n]] == events;
    }
  }

  lemma {:induction false} OneMorePlansSafely(s: State, events: seq<Event>, e: Event)
    requires Life(s) && UniqueOpen(s.reservations) && AllPlanned(events, s.reservations)
    ensures var rs := Step(s, e).reservations; UniqueOpen(rs) && AllPlanned(events + [e], rs)
  {
    StepPlansSafely(s, e);
    AllPlannedStays(events, e, s.reservations, Step(s, e).reservations);
  }

  lemma CycleGapIsLong(cm: Campaign, ad: Ad)
    requires cm.intervalMinutes >= 1
    ensures CycleGap(cm, ad) >= Minutes(cm.intervalMinutes) >= Minutes(1)
  {}

  /** So the slots of a pair come in strictly rising order, a minute apart at least. */
  lemma {:induction false} SlotsRise(events: seq<Event>, i: nat, k: nat)
    requires i < k < |RunFrom(EMPTY, events).reservations|
    requires SamePair(RunFrom(EMPTY, events).reservations[i], RunFrom(EMPTY, events).reservations[k])
    ensures RunFrom(EMPTY, events).reservations[i].scheduledAt + Minutes(1) <=
      RunFrom(EMPTY, events).reservations[k].scheduledAt
  {
    RunPlansSafely(events);
    var rs := RunFrom(EMPTY, events).reservations;
    assert Made(events, rs, k);
    var n :| 0 <= n < |events| && PlannedBy(events[n], rs, k);
    var c :| 0 <= c < |events[n].campaigns| && PlannedFor(events[n].campaigns[c], events[n].now, rs, k);
    CycleGapIsLong(events[n].campaigns[c], CurrentAd(events[n].campaigns[c], events[n].now));
  }
}
