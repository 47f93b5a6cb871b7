/** Which channels a pass serves and with which ad, how long a cycle lasts against the
    time kept for it, and which copies follow a post. */
module SchedulerService {
  import opened Text
  import opened Schedule
  import opened Scheduler
  import opened SchedulerLife
  import opened SchedulerPlan
  import SchedulerCutOff
  import opened SchedulerStarve
  import opened SchedulerPunctual
  import opened SchedulerCycle

  // ------------------------------------------------------------------- who is served

  /** The campaign posts in the channel at this time. */
  predicate Runs(cm: Campaign, channel: string, now: Instant) {
    && (cm.endAt.Some? ==> now <= cm.endAt.value) && cm.intervalMinutes > 0 && cm.ads != []
    && channel in cm.channels && InDailyWindow(now, cm.window)
  }

  predicate Idle(rs: seq<Reservation>, campaign: string, channel: string) {
    forall i | 0 <= i < |rs| && rs[i].For(campaign, channel) :: rs[i].status !in {ResPending, ResConfirmed}
  }

  /** Row i has the latest slot of the pair. */
  predicate IsLatest(rs: seq<Reservation>, i: nat, campaign: string, channel: string) {
    && i < |rs| && rs[i].For(campaign, channel)
    && forall k | 0 <= k < |rs| && rs[k].For(campaign, channel) :: rs[k].scheduledAt <= rs[i].scheduledAt
  }

  /** The pair's next slot: the window's start if it had none, and otherwise one interval
      for each post of the ad after its latest. */
  ghost predicate IsNext(rs: seq<Reservation>, cm: Campaign, ad: Ad, channel: string, start: Instant, due: Instant) {
    || (due == start && forall i | 0 <= i < |rs| :: !rs[i].For(cm.id, channel))
    || (exists i: nat :: IsLatest(rs, i, cm.id, channel)
                         && due == rs[i].scheduledAt + Minutes((1 + |ad.replies|) * cm.intervalMinutes))
  }

  lemma GapOfPosts(cm: Campaign, ad: Ad)
    ensures CycleGap(cm, ad) == Minutes((1 + |ad.replies|) * cm.intervalMinutes)
  {
    assert cm.intervalMinutes * (|ad.replies| + 1) == (1 + |ad.replies|) * cm.intervalMinutes;
  }

  lemma NextDueIsNext(rs: seq<Reservation>, cm: Campaign, ad: Ad, channel: string, start: Instant, due: Instant)
    ensures IsNext(rs, cm, ad, channel, start, due) <==> due == NextDue(rs, cm, ad, channel, start)
  {
    LastIsLatest(rs, cm.id, channel);
    var last := LastReservationAt(rs, cm.id, channel);
    GapOfPosts(cm, ad);
    if last.Some? {
      var i: nat :| i < |rs| && rs[i].For(cm.id, channel) && rs[i].scheduledAt == last.value;
      assert IsLatest(rs, i, cm.id, channel);
      forall k: nat | IsLatest(rs, k, cm.id, channel)
        ensures rs[k].scheduledAt == last.value
      {}
    }
  }

  /** With rows' IDs fresh, a pass gives the channel a row exactly when the campaign posts
      there now, nothing is open for the pair, and its next slot lies in the window and is
      no further ahead than the reminder's lead. */
  lemma ServedIff(s: State, cm: Campaign, channel: string, now: Instant, lead: int, newId: nat -> Uuid)
    requires FreshIds(s.reservations, newId, |cm.channels|)
    ensures var qs := PlanCampaign(s, cm, now, lead, newId).reservations;
      SchedulerStarve.Served(s.reservations, qs, cm.id, channel) <==>
      && Runs(cm, channel, now) && Idle(s.reservations, cm.id, channel)
      && exists due ::
           && IsNext(s.reservations, cm, CurrentAd(cm, now), channel, CurrentWindowStart(now, cm.window), due)
           && InDailyWindow(due, cm.window) && due <= now + Minutes(if lead > 0 then lead else 0)
  {
    ServedNowIff(s, cm, channel, now, lead, newId);
    if Runs(cm, channel, now) {
      MayReserveIff(s.reservations, cm, CurrentAd(cm, now), channel, CurrentWindowStart(now, cm.window), now, lead);
    }
  }

  lemma MayReserveIff(
    rs: seq<Reservation>, cm: Campaign, ad: Ad, channel: string, start: Instant, now: Instant, lead: int)
    ensures MayReserve(rs, cm, ad, channel, start, now, lead) <==>
      && Idle(rs, cm.id, channel)
      && exists due ::
           && IsNext(rs, cm, ad, channel, start, due)
           && InDailyWindow(due, cm.window) && due <= now + Minutes(if lead > 0 then lead else 0)
  {
    assert Idle(rs, cm.id, channel) <==> !HasOpen(rs, cm.id, channel);
    forall due
      ensures IsNext(rs, cm, ad, channel, start, due) <==> due == NextDue(rs, cm, ad, channel, start)
    {
      NextDueIsNext(rs, cm, ad, channel, start, due);
    }
    assert IsNext(rs, cm, ad, channel, start, NextDue(rs, cm, ad, channel, start));
  }

  /** Outside its window a campaign that has not ended has everything of it closed by the
      pass: no row of it stays Sent, pending or confirmed, and no job pending. In every other
      case the pass changes no row and no job that is there. */
  lemma ClosedPassIff(s: State, cm: Campaign, now: Instant, lead: int, newId: nat -> Uuid)
    ensures var t := PlanCampaign(s, cm, now, lead, newId);
      if (cm.endAt.Some? ==> now <= cm.endAt.value) && cm.intervalMinutes > 0 && !InDailyWindow(now, cm.window)
      then AllClosed(s, t, cm.id) else s.reservations <= t.reservations && s.jobs <= t.jobs
  {
    if (cm.endAt.Some? && now > cm.endAt.value) || cm.intervalMinutes < 1 {
    } else if !InDailyWindow(now, cm.window) {
      SchedulerCutOff.CutOffClearsIff(s, cm.id, cm.found);
    } else if cm.ads != [] {
      ChannelsOnlyAdd(s, cm, CurrentAd(cm, now), cm.channels, CurrentWindowStart(now, cm.window), now, lead, newId);
    }
  }

  predicate AllClosed(s: State, t: State, campaign: string) {
    && |t.reservations| == |s.reservations| && |t.jobs| == |s.jobs|
    && (forall i | 0 <= i < |s.reservations| ::
          if s.reservations[i].campaign == campaign
          then t.reservations[i].status !in {ResPending, ResConfirmed, ResSent}
          else t.reservations[i] == s.reservations[i])
    && (forall k | 0 <= k < |s.jobs| ::
          if s.jobs[k].campaign == campaign then t.jobs[k].status != JobPending else t.jobs[k] == s.jobs[k])
  }

  lemma {:induction false} ChannelsOnlyAdd(
    s: State, cm: Campaign, ad: Ad, channels: seq<string>, start: Instant, now: Instant, lead: int, newId: nat -> Uuid)
    ensures var t := PlanChannels(s, cm, ad, channels, start, now, lead, newId);
      s.reservations <= t.reservations && s.jobs <= t.jobs
    decreases |channels|
  {
    if channels != [] {
      ChannelsOnlyAdd(s, cm, ad, channels[..|channels| - 1], start, now, lead, newId);
    }
  }

  // -------------------------------------------------------------- the time for a cycle

  /** How long the replies stay, all together. */
  function TotalMinutes(replies: seq<int>): int {
    if replies == [] then 0 else TotalMinutes(replies[..|replies| - 1]) + replies[|replies| - 1]
  }

  lemma {:induction false} DueAfter(ad: Ad, first: Instant, x: nat)
    requires x <= |ad.replies|
    ensures DueAt(ad, first, x) == first + Minutes(TotalMinutes(ad.replies[..x]))
    decreases x
  {
    if x > 0 {
      DueAfter(ad, first, x - 1);
      assert ad.replies[..x][..x - 1] == ad.replies[..x - 1];
    }
  }

  /** A cycle posted at its slot is over when the pair's next slot comes if and only if
      its replies together stay no longer than an interval each. */
  lemma OverByNextSlotIff(rs: seq<Reservation>, i: nat, cm: Campaign, ad: Ad, start: Instant, next: Instant)
    requires i < |rs| && IsLatest(rs, i, cm.id, rs[i].channel) && IsNext(rs, cm, ad, rs[i].channel, start, next)
    ensures DueAt(ad, rs[i].scheduledAt + Minutes(cm.intervalMinutes), |ad.replies|) <= next <==>
      TotalMinutes(ad.replies) <= |ad.replies| * cm.intervalMinutes
  {
    DueAfter(ad, rs[i].scheduledAt + Minutes(cm.intervalMinutes), |ad.replies|);
    assert ad.replies[..|ad.replies|] == ad.replies;
    assert rs[i].For(cm.id, rs[i].channel);
    var k: nat :| IsLatest(rs, k, cm.id, rs[i].channel)
             && next == rs[k].scheduledAt + Minutes((1 + |ad.replies|) * cm.intervalMinutes);
    assert rs[k].scheduledAt == rs[i].scheduledAt;
    OneForEach(cm.intervalMinutes, |ad.replies|);
  }

  lemma OneForEach(interval: int, n: nat)
    ensures Minutes((1 + n) * interval) == Minutes(interval) + Minutes(n * interval)
  {
    assert (1 + n) * interval == interval + n * interval;
  }

  // --------------------------------------------------------------- copies follow a post

  /** What message m in the channel makes of a row x other than its own: a posted row of
      the channel whose keep-last copy went out lists that copy alone, and its earlier
      messages go or stay as the ad is set; no other row changes. */
  ghost predicate Follows(x: Reservation, y: Reservation, channel: string, m: int, again: Option<Repost>) {
    if x.status == ResSent && x.channel == channel && again.Some? && x.live != [] && x.live[|x.live| - 1] != m then
      && y.live == [again.value.message] && again.value.message in y.shown && y.posted == x.posted + y.live
      && y == x.(live := y.live, posted := y.posted, shown := y.shown)
      && forall n :: n != again.value.message ==>
           (n in y.shown <==> n in x.shown && !(again.value.deletesOld && n in x.live))
    else y == x
  }

  lemma CopyFollows(x: Reservation, channel: string, m: int, again: Option<Repost>)
    ensures Follows(x, AfterPostRow(x, channel, m, again), channel, m, again)
  {}

  /** So it is with every other row after a main post. */
  lemma CopiesFollowAd(s: State, j: nat, env: Env, i: nat, k: nat)
    requires Life(s) && j < |s.jobs| && s.jobs[j].status == JobRunning && PostsAd(env)
    requires i < |s.reservations| && Sends(s.jobs[j], s.reservations[i]) && k < |s.reservations| && k != i
    ensures var t := Step(s, RunJob(j, env));
      && k < |t.reservations|
      && Follows(s.reservations[k], t.reservations[k], s.jobs[j].channel, env.copied.value, env.reposted(k))
  {
    assert JobOk(s.reservations, s.jobs[j]);
    assert IndexOf(s.reservations, s.jobs[j].payload) == i;
    CopyFollows(s.reservations[k], s.jobs[j].channel, env.copied.value, env.reposted(k));
    AdLeavesOthers(s, j, env, i, k);
  }

  lemma AdLeavesOthers(s: State, j: nat, env: Env, i: nat, k: nat)
    requires j < |s.jobs| && s.jobs[j].status == JobRunning && s.jobs[j].kind == SendAd && PostsAd(env)
    requires s.jobs[j].payload != "" && IndexOf(s.reservations, s.jobs[j].payload) == i < |s.reservations|
    requires k < |s.reservations| && k != i
    ensures var t := RunJobStep(s, j, env);
      && k < |t.reservations|
      && t.reservations[k] == AfterPostRow(s.reservations[k], s.jobs[j].channel, env.copied.value, env.reposted(k))
  {
    var job := s.jobs[j];
    var rows := AdRows(s.reservations, job.channel, i, env.copied.value, env, NetAt(job, env.campaign.value, env.now));
    assert |rows| == |s.reservations|;
    assert Handle(s, job, env).0.reservations == rows;
  }

  /** And after a reply. */
  lemma CopiesFollowReply(s: State, j: nat, env: Env, i: nat, ad: Ad, idx: nat, m: int, k: nat)
    requires j < |s.jobs| && s.jobs[j].status == JobRunning && s.jobs[j].kind == SendReply
    requires i < |s.reservations| && IndexOf(s.reservations, s.reservations[i].id) == i && s.reservations[i].live != []
    requires s.jobs[j].payload == Bar(s.reservations[i].id, Decimal(idx)) && idx < |ad.replies| <= INT64_MAX
    requires Answers(env, ad, m, env.now) && k < |s.reservations| && k != i
    ensures var t := Step(s, RunJob(j, env));
      && k < |t.reservations|
      && Follows(s.reservations[k], t.reservations[k], s.jobs[j].channel, m, env.reposted(k))
  {
    ReplyIsHandled(s, s.jobs[j], i, ad, idx, m, env);
    CopyFollows(s.reservations[k], s.jobs[j].channel, m, env.reposted(k));
    ReplyLeavesOthers(ClearReply(s, i), s.jobs[j], ad, i, idx, m, env, k);
    DoneKeepsRows(s, j, env, PostReply(ClearReply(s, i), s.jobs[j], ad, i, idx, m, env));
  }

  lemma DoneKeepsRows(s: State, j: nat, env: Env, t: State)
    requires j < |s.jobs| && s.jobs[j].status == JobRunning && Handle(s, s.jobs[j], env) == (t, false)
    ensures Step(s, RunJob(j, env)).reservations == t.reservations
  {}

  lemma ReplyLeavesOthers(s: State, job: Job, ad: Ad, i: nat, idx: nat, m: int, env: Env, k: nat)
    requires i < |s.reservations| && idx < |ad.replies| && k < |s.reservations| && k != i
    ensures var rs := PostReply(s, job, ad, i, idx, m, env).reservations;
      |rs| == |s.reservations| && rs[k] == AfterPostRow(s.reservations[k], job.channel, m, env.reposted(k))
  {}
}
