/** Slots and their send jobs over every run: each row that waits has its one job, the
    job waits for the row's slot, and nothing is posted before it. */
module SchedulerPunctual {
  import opened Text
  import opened Schedule
  import opened Scheduler
  import opened SchedulerLife
  import opened SchedulerCutOff
  import SchedulerPlan

  // ---------------------------------------------------------------- jobs over a step

  /** The job is the same one, started as often or more often; its time moves only
      after a start. */
  predicate JobEvolves(a: Job, b: Job) {
    && b.kind == a.kind && b.payload == a.payload
    && b.campaign == a.campaign && b.ad == a.ad && b.channel == a.channel
    && a.attempts <= b.attempts && (b.attempts == 0 ==> b.runAt == a.runAt)
  }

  predicate JobsGrow(jobs: seq<Job>, jobs': seq<Job>) {
    |jobs| <= |jobs'| && forall k | 0 <= k < |jobs| :: JobEvolves(jobs[k], jobs'[k])
  }

  predicate StartsKept(jobs: seq<Job>, jobs': seq<Job>) {
    |jobs| <= |jobs'| && forall k | 0 <= k < |jobs| :: jobs'[k].attempts == jobs[k].attempts
  }

  predicate NoSendFrom(jobs: seq<Job>, n: nat) {
    forall k | n <= k < |jobs| :: jobs[k].kind != SendAd
  }

  lemma StartJobsGrow(s: State)
    ensures var t := StartJob(s);
      JobsGrow(s.jobs, t.jobs) && |t.jobs| == |s.jobs| && t.reservations == s.reservations
  {}

  lemma ConcludeJobsGrow(s: State, j: nat, err: bool, now: Instant)
    requires j < |s.jobs| && s.jobs[j].attempts >= 1
    ensures var t := Conclude(s, j, err, now);
      JobsGrow(s.jobs, t.jobs) && StartsKept(s.jobs, t.jobs) && |t.jobs| == |s.jobs|
  {}

  lemma HandleJobsGrow(s: State, job: Job, env: Env)
    ensures var t := Handle(s, job, env).0;
      && JobsGrow(s.jobs, t.jobs) && StartsKept(s.jobs, t.jobs)
      && NoSendFrom(t.jobs, |s.jobs|) && t.fetched == s.fetched
  {
    match job.kind
    case SendAd => AdJobsGrow(s, job, env);
    case SendReply => ReplyJobsGrow(s, job, env);
    case DeletePost =>
    case Reminder =>
  }

  lemma AdJobsGrow(s: State, job: Job, env: Env)
    ensures var t := SendAdHandler(s, job, env).0;
      && JobsGrow(s.jobs, t.jobs) && StartsKept(s.jobs, t.jobs)
      && NoSendFrom(t.jobs, |s.jobs|) && t.fetched == s.fetched
  {}

  lemma ReplyJobsGrow(s: State, job: Job, env: Env)
    ensures var t := SendReplyHandler(s, job, env).0;
      && JobsGrow(s.jobs, t.jobs) && StartsKept(s.jobs, t.jobs)
      && NoSendFrom(t.jobs, |s.jobs|) && t.fetched == s.fetched
  {}

  lemma RunJobsGrow(s: State, j: nat, env: Env)
    requires Life(s)
    ensures var t := RunJobStep(s, j, env);
      && JobsGrow(s.jobs, t.jobs) && StartsKept(s.jobs, t.jobs)
      && NoSendFrom(t.jobs, |s.jobs|) && t.fetched == s.fetched
  {
    if j < |s.jobs| && s.jobs[j].status == JobRunning {
      assert JobOk(s.reservations, s.jobs[j]);
      var (t, err) := Handle(s, s.jobs[j], env);
      HandleJobsGrow(s, s.jobs[j], env);
      HandleKeepsJob(s, j, env);
      ConcludeJobsGrow(t, j, err, env.now);
      ConcludeKeepsKinds(t, j, err, env.now);
    }
  }

  lemma HandleKeepsJob(s: State, j: nat, env: Env)
    requires j < |s.jobs| && s.jobs[j].status == JobRunning
    ensures var t := Handle(s, s.jobs[j], env).0; j < |t.jobs| && t.jobs[j] == s.jobs[j]
  {}

  lemma ConcludeKeepsKinds(s: State, j: nat, err: bool, now: Instant)
    requires j < |s.jobs|
    ensures var t := Conclude(s, j, err, now);
      |t.jobs| == |s.jobs| && t.fetched == s.fetched && forall k | 0 <= k < |s.jobs| :: t.jobs[k].kind == s.jobs[k].kind
  {}

  // ------------------------------------------------------------------ what a pass adds

  predicate Sends(job: Job, r: Reservation) {
    job.kind == SendAd && job.payload == r.id
  }

  /** The job that is to post the row: at its slot, for its campaign, ad and channel. */
  predicate SendsAtSlot(job: Job, r: Reservation) {
    && Sends(job, r) && job.runAt == r.scheduledAt && job.attempts == 0
    && job.campaign == r.campaign && job.ad == r.ad && job.channel == r.channel
  }

  predicate Reminds(job: Job, r: Reservation, at: Instant) {
    && job.kind == Reminder && job.payload == r.id && job.runAt == at && job.attempts == 0
    && job.campaign == r.campaign && job.ad == r.ad && job.channel == r.channel
  }

  /** Where the jobs of the n-th new row begin. */
  function JobOf(base: nat, n: nat, lead: int): nat {
    if lead > 0 then base + 2 * n else base + n
  }

  function Later(a: Instant, b: Instant): Instant {
    if a < b then b else a
  }

  /** The n-th row that a pass has added has its send job and, with a lead, a reminder
      that long before the slot, or at once if that is over. */
  predicate Served(base: nat, r: Reservation, jobs: seq<Job>, n: nat, now: Instant, lead: int) {
    && r.posted == [] && JobOf(base, n + 1, lead) <= |jobs|
    && SendsAtSlot(jobs[JobOf(base, n, lead)], r)
    && (lead > 0 ==> Reminds(jobs[JobOf(base, n, lead) + 1], r, Later(now, r.scheduledAt - Minutes(lead))))
  }

  predicate OnlyStatus(a: Job, b: Job) {
    b == a.(status := b.status)
  }

  predicate SameTimes(jobs: seq<Job>, jobs': seq<Job>) {
    |jobs| <= |jobs'| && forall k | 0 <= k < |jobs| :: OnlyStatus(jobs[k], jobs'[k])
  }

  predicate SameSlot(r: Reservation, q: Reservation) {
    q.id == r.id && q.campaign == r.campaign && q.ad == r.ad && q.channel == r.channel && q.scheduledAt == r.scheduledAt
  }

  predicate KeepSlots(rs: seq<Reservation>, qs: seq<Reservation>) {
    |rs| <= |qs| && forall i | 0 <= i < |rs| :: SameSlot(rs[i], qs[i])
  }

  predicate KeepRows(rs: seq<Reservation>, qs: seq<Reservation>) {
    |rs| <= |qs| && forall i | 0 <= i < |rs| :: SameSlot(rs[i], qs[i]) && qs[i].posted == rs[i].posted
  }

  predicate NewServed(s: State, t: State, now: Instant, lead: int) {
    forall i: nat | |s.reservations| <= i < |t.reservations| ::
      Served(|s.jobs|, t.reservations[i], t.jobs, i - |s.reservations|, now, lead)
  }

  /** From s to t rows were added, each with its jobs, and no other job. */
  predicate Adds(s: State, t: State, now: Instant, lead: int) {
    && KeepRows(s.reservations, t.reservations)
    && |t.jobs| == JobOf(|s.jobs|, |t.reservations| - |s.reservations|, lead)
    && SameTimes(s.jobs, t.jobs) && t.fetched == s.fetched
    && NewServed(s, t, now, lead)
  }

  lemma ServedStays(base: nat, r: Reservation, q: Reservation, jobs: seq<Job>, jobs': seq<Job>, n: nat, now: Instant,
                    lead: int)
    requires Served(base, r, jobs, n, now, lead) && SameSlot(r, q) && q.posted == r.posted && SameTimes(jobs, jobs')
    ensures Served(base, q, jobs', n, now, lead)
  {}

  lemma TimesChain(a: seq<Job>, b: seq<Job>, c: seq<Job>)
    requires SameTimes(a, b) && SameTimes(b, c)
    ensures SameTimes(a, c)
  {
    forall k | 0 <= k < |a|
      ensures OnlyStatus(a[k], c[k])
    {
      assert OnlyStatus(a[k], b[k]) && OnlyStatus(b[k], c[k]);
    }
  }

  lemma RowsChain(a: seq<Reservation>, b: seq<Reservation>, c: seq<Reservation>)
    requires KeepRows(a, b) && KeepRows(b, c)
    ensures KeepRows(a, c)
  {}

  lemma AddsChain(s: State, u: State, t: State, now: Instant, lead: int)
    requires Adds(s, u, now, lead) && Adds(u, t, now, lead)
    ensures Adds(s, t, now, lead)
  {
    TimesChain(s.jobs, u.jobs, t.jobs);
    RowsChain(s.reservations, u.reservations, t.reservations);
    forall i: nat | |s.reservations| <= i < |t.reservations|
      ensures Served(|s.jobs|, t.reservations[i], t.jobs, i - |s.reservations|, now, lead)
    {
      if i < |u.reservations| {
        assert Served(|s.jobs|, u.reservations[i], u.jobs, i - |s.reservations|, now, lead);
        ServedStays(|s.jobs|, u.reservations[i], t.reservations[i], u.jobs, t.jobs, i - |s.reservations|, now, lead);
      } else {
        assert Served(|u.jobs|, t.reservations[i], t.jobs, i - |u.reservations|, now, lead);
      }
    }
  }

  lemma ChannelAdds(s: State, cm: Campaign, ad: Ad, channel: string, start: Instant, now: Instant, lead: int,
                    newId: nat -> Uuid)
    ensures Adds(s, PlanChannel(s, cm, ad, channel, start, now, lead, newId), now, lead)
  {
    var t := PlanChannel(s, cm, ad, channel, start, now, lead, newId);
    if t != s {
      var r, n := t.reservations[|s.reservations|], |s.jobs|;
      assert SendsAtSlot(t.jobs[n], r);
      assert lead > 0 ==> Reminds(t.jobs[n + 1], r, Later(now, r.scheduledAt - Minutes(lead)));
      assert Served(n, r, t.jobs, 0, now, lead);
    }
  }

  lemma {:induction false} ChannelsAdd(
    s: State, cm: Campaign, ad: Ad, channels: seq<string>, start: Instant, now: Instant, lead: int, newId: nat -> Uuid)
    ensures Adds(s, PlanChannels(s, cm, ad, channels, start, now, lead, newId), now, lead)
    decreases |channels|
  {
    if channels != [] {
      var most, last := channels[..|channels| - 1], channels[|channels| - 1];
      var u := PlanChannels(s, cm, ad, most, start, now, lead, newId);
      ChannelsAdd(s, cm, ad, most, start, now, lead, newId);
      ChannelAdds(u, cm, ad, last, start, now, lead, newId);
      AddsChain(s, u, PlanChannel(u, cm, ad, last, start, now, lead, newId), now, lead);
    }
  }

  lemma CampaignAdds(s: State, cm: Campaign, now: Instant, lead: int, newId: nat -> Uuid)
    ensures Adds(s, PlanCampaign(s, cm, now, lead, newId), now, lead)
  {
    if InDailyWindow(now, cm.window) && cm.ads != [] {
      ChannelsAdd(s, cm, CurrentAd(cm, now), cm.channels, CurrentWindowStart(now, cm.window), now, lead, newId);
    }
  }

  /** A pass gives each row it adds one send job, at the row's slot, and with a lead one
      reminder, that long before the slot or at once if that is over; it adds no other
      job. */
  lemma {:induction false} PassServesRows(
    s: State, campaigns: seq<Campaign>, now: Instant, lead: int, newId: nat -> Uuid)
    ensures Adds(s, PlanCampaigns(s, campaigns, now, lead, newId), now, lead)
    decreases |campaigns|
  {
    if campaigns != [] {
      var most, last := campaigns[..|campaigns| - 1], campaigns[|campaigns| - 1];
      var u := PlanCampaigns(s, most, now, lead, newId);
      PassServesRows(s, most, now, lead, newId);
      CampaignAdds(u, last, now, lead, newId);
      AddsChain(s, u, PlanCampaign(u, last, now, lead, newId), now, lead);
    }
  }

  // --------------------------------------------------------- send jobs wait for their slot

  predicate SameTarget(job: Job, r: Reservation) {
    job.campaign == r.campaign && job.ad == r.ad && job.channel == r.channel
  }

  predicate JobOnSlot(rs: seq<Reservation>, job: Job) {
    forall i | 0 <= i < |rs| && Sends(job, rs[i]) ::
      SameTarget(job, rs[i]) && (job.attempts == 0 ==> job.runAt == rs[i].scheduledAt)
  }

  /** A send job is for its row's campaign, ad and channel, and until it has been started
      it is due at the row's slot. */
  predicate OnSlot(rs: seq<Reservation>, jobs: seq<Job>) {
    forall k | 0 <= k < |jobs| :: JobOnSlot(rs, jobs[k])
  }

  lemma OnSlotStays(rs: seq<Reservation>, qs: seq<Reservation>, jobs: seq<Job>, jobs': seq<Job>)
    requires OnSlot(rs, jobs) && KeepSlots(rs, qs) && |qs| == |rs|
    requires JobsGrow(jobs, jobs') && NoSendFrom(jobs', |jobs|) && forall k | 0 <= k < |jobs| :: jobs[k].attempts >= 0
    ensures OnSlot(qs, jobs')
  {
    forall k | 0 <= k < |jobs'|
      ensures JobOnSlot(qs, jobs'[k])
    {
      if k < |jobs| {
        assert JobOnSlot(rs, jobs[k]);
        assert forall i | 0 <= i < |qs| && Sends(jobs'[k], qs[i]) :: Sends(jobs[k], rs[i]);
      }
    }
  }

  /** Which of the new rows the k-th job belongs to. */
  function RowOf(base: nat, k: nat, lead: int): nat
    requires base <= k
  {
    if lead > 0 then (k - base) / 2 else k - base
  }

  lemma NewJobOnSlot(s: State, t: State, now: Instant, lead: int, k: nat)
    requires Adds(s, t, now, lead) && |s.jobs| <= k < |t.jobs| && RowsOk(t.reservations)
    ensures JobOnSlot(t.reservations, t.jobs[k])
  {
    var i := |s.reservations| + RowOf(|s.jobs|, k, lead);
    assert i < |t.reservations|;
    assert Served(|s.jobs|, t.reservations[i], t.jobs, i - |s.reservations|, now, lead);
  }

  lemma OldRowsOnly(s: State, t: State, now: Instant, lead: int, k: nat)
    requires Adds(s, t, now, lead) && k < |s.jobs| && RowsOk(t.reservations) && JobOk(s.reservations, s.jobs[k])
    ensures OnlyStatus(s.jobs[k], t.jobs[k])
    ensures forall i | 0 <= i < |t.reservations| && Sends(t.jobs[k], t.reservations[i]) ::
      i < |s.reservations| && Sends(s.jobs[k], s.reservations[i]) && SameSlot(s.reservations[i], t.reservations[i])
  {
    assert OnlyStatus(s.jobs[k], t.jobs[k]);
    forall i | 0 <= i < |t.reservations| && Sends(t.jobs[k], t.reservations[i])
      ensures i < |s.reservations| && Sends(s.jobs[k], s.reservations[i])
    {
      var o := IndexOf(s.reservations, s.jobs[k].payload);
      assert t.reservations[o].id == t.reservations[i].id;
    }
  }

  lemma PassKeepsOnSlot(s: State, t: State, now: Instant, lead: int)
    requires Life(s) && Adds(s, t, now, lead) && RowsOk(t.reservations) && OnSlot(s.reservations, s.jobs)
    ensures OnSlot(t.reservations, t.jobs)
  {
    forall k | 0 <= k < |t.jobs|
      ensures JobOnSlot(t.reservations, t.jobs[k])
    {
      if k < |s.jobs| {
        assert JobOk(s.reservations, s.jobs[k]);
        OldRowsOnly(s, t, now, lead, k);
        assert JobOnSlot(s.reservations, s.jobs[k]);
      } else {
        NewJobOnSlot(s, t, now, lead, k);
      }
    }
  }

  lemma GrowsKeepsSlots(rs: seq<Reservation>, qs: seq<Reservation>)
    requires Grows(rs, qs)
    ensures KeepSlots(rs, qs)
  {}

  lemma OthersGrow(s: State, e: Event)
    requires Life(s) && !e.Plan?
    ensures var t := Step(s, e);
      && JobsGrow(s.jobs, t.jobs) && NoSendFrom(t.jobs, |s.jobs|)
      && |t.reservations| == |s.reservations| && KeepSlots(s.reservations, t.reservations)
  {
    StepKeepsLife(s, e);
    GrowsKeepsSlots(s.reservations, Step(s, e).reservations);
    SchedulerPlan.OnlyPlansAddRows(s, e);
    match e
    case Fetch(_) =>
    case StartNext => StartJobsGrow(s);
    case RunJob(j, env) => RunJobsGrow(s, j, env);
  }

  lemma StepKeepsOnSlot(s: State, e: Event)
    requires Life(s) && OnSlot(s.reservations, s.jobs)
    ensures var t := Step(s, e); OnSlot(t.reservations, t.jobs)
  {
    var t := Step(s, e);
    StepKeepsLife(s, e);
    if e.Plan? {
      PassServesRows(s, e.campaigns, e.now, e.reminderLead, e.newId);
      PassKeepsOnSlot(s, t, e.now, e.reminderLead);
    } else {
      OthersGrow(s, e);
      assert forall k | 0 <= k < |s.jobs| :: JobOk(s.reservations, s.jobs[k]);
      OnSlotStays(s.reservations, t.reservations, s.jobs, t.jobs);
    }
  }

  lemma {:induction false} RunIsOnSlot(events: seq<Event>)
    ensures var s := RunFrom(EMPTY, events); OnSlot(s.reservations, s.jobs)
    decreases |events|
  {
    if events != [] {
      RunIsOnSlot(events[..|events| - 1]);
      RunKeepsLife(EMPTY, events[..|events| - 1]);
      StepKeepsOnSlot(RunFrom(EMPTY, events[..|events| - 1]), events[|events| - 1]);
    }
  }

  // ------------------------------------------------------------ every open row is awaited

  /** Job k is to post row i, and has not given up. */
  predicate Awaits(s: State, i: nat, k: nat, found: bool)
    requires i < |s.reservations|
  {
    && k < |s.jobs| && Sends(s.jobs[k], s.reservations[i])
    && (s.jobs[k].status in {JobPending, JobRunning} || (!found && s.jobs[k].status == JobDone))
  }

  ghost predicate Awaited(s: State, i: nat, found: bool)
    requires i < |s.reservations|
  {
    exists k: nat :: Awaits(s, i, k, found)
  }

  /** Every row that is open has a send job; it is waiting or running, or has found no
      campaign, which cannot be when campaigns are always found. */
  ghost predicate OpenAwaited(s: State, found: bool) {
    forall i: nat | i < |s.reservations| && s.reservations[i].Open() :: Awaited(s, i, found)
  }

  predicate FindsCampaign(e: Event) {
    e.RunJob? ==> e.env.campaign.Some?
  }

  lemma CutOffAwaits(s: State, campaign: string, chs: set<string>, found: bool)
    requires OpenAwaited(s, found) && OnSlot(s.reservations, s.jobs)
    ensures OpenAwaited(CutOffCampaign(s, campaign, chs), found)
  {
    var t := CutOffCampaign(s, campaign, chs);
    forall i: nat | i < |t.reservations| && t.reservations[i].Open()
      ensures Awaited(t, i, found)
    {
      assert Awaited(s, i, found);
      var k: nat :| Awaits(s, i, k, found);
      assert JobOnSlot(s.reservations, s.jobs[k]);
      assert Awaits(t, i, k, found);
    }
  }

  lemma ChannelAwaits(s: State, cm: Campaign, ad: Ad, channel: string, start: Instant, now: Instant, lead: int,
                      newId: nat -> Uuid, found: bool)
    requires OpenAwaited(s, found)
    ensures OpenAwaited(PlanChannel(s, cm, ad, channel, start, now, lead, newId), found)
  {
    var t := PlanChannel(s, cm, ad, channel, start, now, lead, newId);
    forall i: nat | i < |t.reservations| && t.reservations[i].Open()
      ensures Awaited(t, i, found)
    {
      if i < |s.reservations| {
        assert Awaited(s, i, found);
        var k: nat :| Awaits(s, i, k, found);
        assert Awaits(t, i, k, found);
      } else {
        assert Awaits(t, i, |s.jobs|, found);
      }
    }
  }

  lemma {:induction false} ChannelsAwait(
    s: State, cm: Campaign, ad: Ad, channels: seq<string>, start: Instant, now: Instant, lead: int,
    newId: nat -> Uuid, found: bool)
    requires OpenAwaited(s, found)
    ensures OpenAwaited(PlanChannels(s, cm, ad, channels, start, now, lead, newId), found)
    decreases |channels|
  {
    if channels != [] {
      var most, last := channels[..|channels| - 1], channels[|channels| - 1];
      ChannelsAwait(s, cm, ad, most, start, now, lead, newId, found);
      var u := PlanChannels(s, cm, ad, most, start, now, lead, newId);
      ChannelAwaits(u, cm, ad, last, start, now, lead, newId, found);
    }
  }

  lemma {:induction false} PassAwaits(
    s: State, campaigns: seq<Campaign>, now: Instant, lead: int, newId: nat -> Uuid, found: bool)
    requires Life(s) && OnSlot(s.reservations, s.jobs) && OpenAwaited(s, found)
    ensures var t := PlanCampaigns(s, campaigns, now, lead, newId); OpenAwaited(t, found)
    decreases |campaigns|
  {
    if campaigns != [] {
      var most, cm := campaigns[..|campaigns| - 1], campaigns[|campaigns| - 1];
      var u := PlanCampaigns(s, most, now, lead, newId);
      PassAwaits(s, most, now, lead, newId, found);
      StepKeepsOnSlot(s, Plan(most, now, lead, newId));
      if !InDailyWindow(now, cm.window) {
        CutOffAwaits(u, cm.id, cm.found, found);
      } else if cm.ads != [] {
        var start := CurrentWindowStart(now, cm.window);
        ChannelsAwait(u, cm, CurrentAd(cm, now), cm.channels, start, now, lead, newId, found);
      }
    }
  }

  lemma ConcludeOthers(s: State, j: nat, err: bool, now: Instant, k: nat)
    requires j < |s.jobs| && k < |s.jobs| && k != j
    ensures var t := Conclude(s, j, err, now);
      && |t.jobs| == |s.jobs| && t.jobs[k] == s.jobs[k] && |t.reservations| == |s.reservations|
      && forall i | 0 <= i < |s.reservations| && t.reservations[i].Open() :: s.reservations[i].Open()
  {}

  lemma HandleOthers(s: State, job: Job, env: Env, k: nat)
    requires job.kind != DeletePost && k < |s.jobs|
    ensures var t := Handle(s, job, env).0; k < |t.jobs| && t.jobs[k] == s.jobs[k]
  {}

  lemma EndCycleOthers(s: State, id: Uuid, chFound: bool, k: nat, i: nat)
    requires Life(s) && k < |s.jobs| && i < |s.reservations| && Sends(s.jobs[k], s.reservations[i])
    ensures var t := EndCycle(s, id, chFound);
      && |t.jobs| == |s.jobs| && |t.reservations| == |s.reservations|
      && (t.reservations[i].Open() ==> t.jobs[k] == s.jobs[k])
  {
    assert JobOk(s.reservations, s.jobs[k]);
    BelongsExactly(s.reservations, s.jobs[k], id);
    var o := IndexOf(s.reservations, id);
    assert o < |s.reservations| && s.jobs[k].payload == id ==> o == i;
  }

  /** Of the send jobs of rows that stay open only the one that runs changes. */
  lemma OtherJobsStay(s: State, j: nat, env: Env, k: nat, i: nat)
    requires Life(s) && j < |s.jobs| && k < |s.jobs| && k != j
    requires i < |s.reservations| && Sends(s.jobs[k], s.reservations[i])
    ensures var t := RunJobStep(s, j, env);
      i < |t.reservations| && k < |t.jobs| && (t.reservations[i].Open() ==> t.jobs[k] == s.jobs[k])
  {
    if s.jobs[j].status == JobRunning {
      var (t, err) := Handle(s, s.jobs[j], env);
      HandleKeepsJob(s, j, env);
      SchedulerPlan.HandlersAddNoRows(s, s.jobs[j], env);
      assert JobOk(s.reservations, s.jobs[j]);
      if s.jobs[j].kind == DeletePost {
        EndCycleOthers(s, s.jobs[j].payload, env.channelFound, k, i);
      } else {
        HandleOthers(s, s.jobs[j], env, k);
      }
      ConcludeOthers(t, j, err, env.now, k);
    }
  }

  /** The send job of a row that stays open is tried again, or has found no campaign. */
  lemma OwnJobRuns(s: State, j: nat, env: Env, i: nat, found: bool)
    requires Life(s) && i < |s.reservations| && Awaits(s, i, j, found) && FindsOr(env, found)
    ensures var t := RunJobStep(s, j, env);
      && i < |t.reservations| && j < |t.jobs|
      && (t.reservations[i].Open() ==>
            t.jobs[j].status in {JobPending, JobRunning} || (!found && t.jobs[j].status == JobDone))
  {
    if s.jobs[j].status == JobRunning {
      assert JobOk(s.reservations, s.jobs[j]);
      assert IndexOf(s.reservations, s.jobs[j].payload) == i;
      if PostsAd(env) {
        AdIsPosted(s, j, env, i);
      } else {
        assert Handle(s, s.jobs[j], env).0 == s;
      }
    }
  }

  predicate FindsOr(env: Env, found: bool) {
    found ==> env.campaign.Some?
  }

  predicate PostsAd(env: Env) {
    env.ad.Some? && env.channelFound && env.campaign.Some? && env.copied.Some?
  }

  lemma AdIsPosted(s: State, j: nat, env: Env, i: nat)
    requires Life(s) && j < |s.jobs| && s.jobs[j].status == JobRunning && s.jobs[j].kind == SendAd && PostsAd(env)
    requires i < |s.reservations| && IndexOf(s.reservations, s.jobs[j].payload) == i && s.jobs[j].payload != ""
    ensures var t := RunJobStep(s, j, env);
      && |t.reservations| == |s.reservations| && j < |t.jobs|
      && t.reservations[i].status == ResSent && t.reservations[i].posted != []
  {}

  /** A run of a row's send job leaves the row open with the job done, so that it waits
      for nothing, if and only if ad and channel are found and the campaign is not. */
  lemma WaitsForNothingIff(s: State, j: nat, env: Env, i: nat)
    requires Life(s) && j < |s.jobs| && s.jobs[j].status == JobRunning
    requires i < |s.reservations| && Sends(s.jobs[j], s.reservations[i]) && s.reservations[i].Open()
    ensures var t := RunJobStep(s, j, env);
      && i < |t.reservations| && j < |t.jobs|
      && (t.reservations[i].Open() && t.jobs[j].status == JobDone <==>
          env.ad.Some? && env.channelFound && env.campaign.None?)
  {
    assert JobOk(s.reservations, s.jobs[j]);
    assert IndexOf(s.reservations, s.jobs[j].payload) == i;
    if PostsAd(env) {
      AdIsPosted(s, j, env, i);
    } else {
      assert Handle(s, s.jobs[j], env).0 == s;
    }
  }

  lemma JobAwaits(s: State, j: nat, env: Env, found: bool)
    requires Life(s) && OpenAwaited(s, found) && FindsOr(env, found)
    ensures OpenAwaited(RunJobStep(s, j, env), found)
  {
    var t := RunJobStep(s, j, env);
    StepKeepsLife(s, RunJob(j, env));
    SchedulerPlan.OnlyPlansAddRows(s, RunJob(j, env));
    forall i: nat | i < |t.reservations| && t.reservations[i].Open()
      ensures Awaited(t, i, found)
    {
      assert Evolves(s.reservations[i], t.reservations[i]);
      assert Awaited(s, i, found);
      var k: nat :| Awaits(s, i, k, found);
      RunJobsGrow(s, j, env);
      assert JobEvolves(s.jobs[k], t.jobs[k]);
      if k == j {
        OwnJobRuns(s, j, env, i, found);
      } else if j < |s.jobs| {
        OtherJobsStay(s, j, env, k, i);
      }
      assert Awaits(t, i, k, found);
    }
  }

  lemma StartAwaits(s: State, found: bool)
    requires Life(s) && OpenAwaited(s, found)
    ensures OpenAwaited(StartJob(s), found)
  {
    var t := StartJob(s);
    forall i: nat | i < |t.reservations| && t.reservations[i].Open()
      ensures Awaited(t, i, found)
    {
      assert Awaited(s, i, found);
      var k: nat :| Awaits(s, i, k, found);
      assert Awaits(t, i, k, found);
    }
  }

  lemma FetchAwaits(s: State, now: Instant, found: bool)
    requires OpenAwaited(s, found)
    ensures OpenAwaited(Step(s, Fetch(now)), found)
  {
    var t := Step(s, Fetch(now));
    forall i: nat | i < |t.reservations| && t.reservations[i].Open()
      ensures Awaited(t, i, found)
    {
      assert Awaited(s, i, found);
      var k: nat :| Awaits(s, i, k, found);
      assert Awaits(t, i, k, found);
    }
  }

  lemma StepAwaits(s: State, e: Event, found: bool)
    requires Life(s) && OnSlot(s.reservations, s.jobs) && OpenAwaited(s, found) && (found ==> FindsCampaign(e))
    ensures OpenAwaited(Step(s, e), found)
  {
    match e
    case Plan(campaigns, now, lead, newId) => PassAwaits(s, campaigns, now, lead, newId, found);
    case Fetch(now) => FetchAwaits(s, now, found);
    case StartNext => StartAwaits(s, found);
    case RunJob(j, env) => JobAwaits(s, j, env, found);
  }

  predicate AllFindCampaigns(events: seq<Event>) {
    forall n | 0 <= n < |events| :: FindsCampaign(events[n])
  }

  lemma {:induction false} RunAwaits(events: seq<Event>, found: bool)
    requires found ==> AllFindCampaigns(events)
    ensures OpenAwaited(RunFrom(EMPTY, events), found)
    decreases |events|
  {
    if events != [] {
      var n := |events| - 1;
      RunAwaits(events[..n], found);
      RunKeepsLife(EMPTY, events[..n]);
      RunIsOnSlot(events[..n]);
      StepAwaits(RunFrom(EMPTY, events[..n]), events[n], found);
    }
  }

  /** The row has one send job, and it is this one. */
  ghost predicate OnlySend(s: State, i: nat, k: nat)
    requires i < |s.reservations|
  {
    k < |s.jobs| && forall n | 0 <= n < |s.jobs| :: Sends(s.jobs[n], s.reservations[i]) <==> n == k
  }

  /** In every reachable state a row that is pending or confirmed has exactly one send
      job, for its campaign, ad and channel, due at its slot until it is first started. It
      is waiting or running; or it ran and found no campaign, and then the row waits for
      nothing. */
  lemma {:induction false} OpenRowsHaveTheirJob(events: seq<Event>, i: nat) returns (k: nat)
    requires i < |RunFrom(EMPTY, events).reservations| && RunFrom(EMPTY, events).reservations[i].Open()
    ensures var s := RunFrom(EMPTY, events); var r := s.reservations[i];
      && OnlySend(s, i, k) && s.jobs[k].campaign == r.campaign && s.jobs[k].ad == r.ad && s.jobs[k].channel == r.channel
      && (s.jobs[k].attempts == 0 ==> s.jobs[k].runAt == r.scheduledAt)
      && (s.jobs[k].status in {JobPending, JobRunning} || (s.jobs[k].status == JobDone && !AllFindCampaigns(events)))
  {
    var s, found := RunFrom(EMPTY, events), AllFindCampaigns(events);
    RunAwaits(events, found);
    RunKeepsLife(EMPTY, events);
    RunIsOnSlot(events);
    assert Awaited(s, i, found);
    k :| Awaits(s, i, k, found);
    assert JobOnSlot(s.reservations, s.jobs[k]);
  }

  // --------------------------------------------------------- nothing before its slot

  function TimeOf(e: Event): Option<Instant> {
    match e
    case Plan(_, now, _, _) => Some(now)
    case Fetch(now) => Some(now)
    case StartNext => None
    case RunJob(_, env) => Some(env.now)
  }

  predicate By(e: Event, now: Instant) {
    TimeOf(e).Some? ==> TimeOf(e).value <= now
  }

  predicate AllBy(events: seq<Event>, now: Instant) {
    forall n | 0 <= n < |events| :: By(events[n], now)
  }

  predicate ClockGoesForward(events: seq<Event>) {
    forall m, n | 0 <= m < n < |events| && TimeOf(events[n]).Some? :: By(events[m], TimeOf(events[n]).value)
  }

  /** The job of a slot still to come has not been taken up. */
  predicate JobInTime(s: State, k: nat, now: Instant)
    requires k < |s.jobs|
  {
    forall i | 0 <= i < |s.reservations| && Sends(s.jobs[k], s.reservations[i]) ::
      s.jobs[k].attempts >= 1 || k in s.fetched ==> s.reservations[i].scheduledAt <= now
  }

  predicate RowsInTime(rs: seq<Reservation>, now: Instant) {
    forall i | 0 <= i < |rs| && rs[i].posted != [] :: rs[i].scheduledAt <= now
  }

  predicate InTime(s: State, now: Instant) {
    RowsInTime(s.reservations, now) && forall k: nat | k < |s.jobs| :: JobInTime(s, k, now)
  }

  lemma FetchInTime(s: State, at: Instant, now: Instant)
    requires Life(s) && OnSlot(s.reservations, s.jobs) && InTime(s, now) && at <= now
    ensures InTime(Step(s, Fetch(at)), now)
  {
    var t := Step(s, Fetch(at));
    if t != s {
      DueJobsAreDue(s.jobs, at);
      forall k: nat | k < |t.jobs|
        ensures JobInTime(t, k, now)
      {
        assert JobInTime(s, k, now) && JobOnSlot(s.reservations, s.jobs[k]) && JobOk(s.reservations, s.jobs[k]);
      }
    }
  }

  lemma StartInTime(s: State, now: Instant)
    requires Life(s) && InTime(s, now)
    ensures InTime(StartJob(s), now)
  {
    var t := StartJob(s);
    if t != s {
      forall k: nat | k < |t.jobs|
        ensures JobInTime(t, k, now)
      {
        assert JobInTime(s, k, now);
        assert k in t.fetched ==> k in s.fetched;
      }
    }
  }

  lemma NewRowsUnposted(s: State, t: State, now: Instant, lead: int)
    requires Adds(s, t, now, lead)
    ensures forall i: nat | i < |t.reservations| && t.reservations[i].posted != [] ::
      i < |s.reservations| && s.reservations[i].posted != [] && SameSlot(s.reservations[i], t.reservations[i])
  {
    forall i: nat | |s.reservations| <= i < |t.reservations|
      ensures t.reservations[i].posted == []
    {
      assert Served(|s.jobs|, t.reservations[i], t.jobs, i - |s.reservations|, now, lead);
    }
  }

  lemma PassInTime(s: State, e: Event, now: Instant)
    requires Life(s) && InTime(s, now) && e.Plan?
    ensures InTime(Step(s, e), now)
  {
    var t := Step(s, e);
    StepKeepsLife(s, e);
    PassServesRows(s, e.campaigns, e.now, e.reminderLead, e.newId);
    NewRowsUnposted(s, t, e.now, e.reminderLead);
    forall k: nat | k < |t.jobs|
      ensures JobInTime(t, k, now)
    {
      if k < |s.jobs| {
        assert JobInTime(s, k, now) && JobOk(s.reservations, s.jobs[k]);
        OldRowsOnly(s, t, e.now, e.reminderLead, k);
      } else {
        NewJobUntouched(s, t, e.now, e.reminderLead, k);
      }
    }
  }

  lemma NewJobUntouched(s: State, t: State, now: Instant, lead: int, k: nat)
    requires FetchedOk(s) && Adds(s, t, now, lead) && |s.jobs| <= k < |t.jobs|
    ensures t.jobs[k].attempts == 0 && k !in t.fetched
  {
    var i := |s.reservations| + RowOf(|s.jobs|, k, lead);
    assert Served(|s.jobs|, t.reservations[i], t.jobs, i - |s.reservations|, now, lead);
  }

  lemma ConcludePosts(s: State, j: nat, err: bool, now: Instant, i: nat)
    requires j < |s.jobs| && i < |s.reservations|
    ensures var t := Conclude(s, j, err, now);
      |t.reservations| == |s.reservations| && t.reservations[i].posted == s.reservations[i].posted
  {}

  /** Only its own send job posts a row that has posted nothing. */
  lemma HandlerPostsOwn(s: State, j: nat, env: Env, i: nat)
    requires Life(s) && j < |s.jobs| && s.jobs[j].status == JobRunning
    requires i < |s.reservations| && s.reservations[i].posted == []
    ensures var t := Handle(s, s.jobs[j], env).0;
      |t.reservations| == |s.reservations| && (t.reservations[i].posted != [] ==> Sends(s.jobs[j], s.reservations[i]))
  {
    SchedulerPlan.HandlersAddNoRows(s, s.jobs[j], env);
    assert RowOk(s.reservations[i]);
    if s.reservations[i].live != [] {
      LiveWasPosted(s.reservations[i]);
    }
    match s.jobs[j].kind
    case SendAd =>
      if PostsAd(env) {
        PostAdRows(s, j, env.ad.value, env.campaign.value, env.copied.value, env);
      }
    case SendReply => ReplyPostsOwn(s, s.jobs[j], env, i);
    case DeletePost =>
    case Reminder =>
  }

  lemma ReplyPostsOwn(s: State, job: Job, env: Env, i: nat)
    requires i < |s.reservations| && s.reservations[i].posted == s.reservations[i].live == []
    ensures var t := SendReplyHandler(s, job, env).0;
      i < |t.reservations| && t.reservations[i].posted == []
  {}

  lemma JobPostsOwn(s: State, j: nat, env: Env, i: nat)
    requires Life(s) && i < |s.reservations| && s.reservations[i].posted == []
    ensures var t := RunJobStep(s, j, env);
      && i < |t.reservations|
      && (t.reservations[i].posted != [] ==>
            j < |s.jobs| && s.jobs[j].status == JobRunning && Sends(s.jobs[j], s.reservations[i]))
  {
    if j < |s.jobs| && s.jobs[j].status == JobRunning {
      var (t, err) := Handle(s, s.jobs[j], env);
      HandlerPostsOwn(s, j, env, i);
      HandleKeepsJob(s, j, env);
      ConcludePosts(t, j, err, env.now, i);
    }
  }

  lemma JobRowsInTime(s: State, j: nat, env: Env, now: Instant)
    requires Life(s) && InTime(s, now)
    ensures RowsInTime(RunJobStep(s, j, env).reservations, now)
  {
    var t := RunJobStep(s, j, env);
    OthersGrow(s, RunJob(j, env));
    forall i | 0 <= i < |t.reservations| && t.reservations[i].posted != []
      ensures t.reservations[i].scheduledAt <= now
    {
      if s.reservations[i].posted == [] {
        JobPostsOwn(s, j, env, i);
        RunningWasStarted(s, j);
        assert JobInTime(s, j, now);
      }
    }
  }

  lemma JobInTimeStep(s: State, j: nat, env: Env, now: Instant)
    requires Life(s) && InTime(s, now)
    ensures InTime(RunJobStep(s, j, env), now)
  {
    JobRowsInTime(s, j, env, now);
    OthersGrow(s, RunJob(j, env));
    RunJobsGrow(s, j, env);
    StillInTime(s, RunJobStep(s, j, env), now);
  }

  lemma StillInTime(s: State, t: State, now: Instant)
    requires Life(s) && InTime(s, now) && RowsInTime(t.reservations, now)
    requires KeepSlots(s.reservations, t.reservations) && |t.reservations| == |s.reservations|
    requires JobsGrow(s.jobs, t.jobs) && StartsKept(s.jobs, t.jobs)
    requires NoSendFrom(t.jobs, |s.jobs|) && t.fetched == s.fetched
    ensures InTime(t, now)
  {
    forall k: nat | k < |t.jobs|
      ensures JobInTime(t, k, now)
    {
      if k < |s.jobs| {
        assert JobInTime(s, k, now) && JobEvolves(s.jobs[k], t.jobs[k]);
        assert forall i | 0 <= i < |t.reservations| && Sends(t.jobs[k], t.reservations[i]) ::
          Sends(s.jobs[k], s.reservations[i]);
      }
    }
  }

  lemma StepInTime(s: State, e: Event, now: Instant)
    requires Life(s) && OnSlot(s.reservations, s.jobs) && InTime(s, now) && By(e, now)
    ensures InTime(Step(s, e), now)
  {
    match e
    case Plan(_, _, _, _) => PassInTime(s, e, now);
    case Fetch(at) => FetchInTime(s, at, now);
    case StartNext => StartInTime(s, now);
    case RunJob(j, env) => JobInTimeStep(s, j, env, now);
  }

  lemma {:induction false} RunInTime(events: seq<Event>, now: Instant)
    requires AllBy(events, now)
    ensures InTime(RunFrom(EMPTY, events), now)
    decreases |events|
  {
    if events != [] {
      var n := |events| - 1;
      RunInTime(events[..n], now);
      RunKeepsLife(EMPTY, events[..n]);
      RunIsOnSlot(events[..n]);
      StepInTime(RunFrom(EMPTY, events[..n]), events[n], now);
    }
  }

  /** With a clock that goes forward nothing is posted for a row before its slot: the
      event that posts its first message comes at the slot or after. */
  lemma {:induction false} PostedOnTime(events: seq<Event>, n: nat, i: nat)
    requires ClockGoesForward(events) && n < |events|
    requires var s, t := RunFrom(EMPTY, events[..n]), RunFrom(EMPTY, events[..n + 1]);
      && i < |s.reservations| && s.reservations[i].posted == []
      && i < |t.reservations| && t.reservations[i].posted != []
    ensures events[n].RunJob? && RunFrom(EMPTY, events[..n + 1]).reservations[i].scheduledAt <= events[n].env.now
  {
    var s := RunFrom(EMPTY, events[..n]);
    assert events[..n + 1][..n] == events[..n] && events[..n + 1][n] == events[n];
    RunKeepsLife(EMPTY, events[..n]);
    if events[n].Plan? {
      PassServesRows(s, events[n].campaigns, events[n].now, events[n].reminderLead, events[n].newId);
    }
    assert events[n].RunJob?;
    RunInTime(events[..n + 1], events[n].env.now);
  }

  // --------------------------------------------------------------------- failing tries

  /** A try that fails is repeated 5, 10 and 15 minutes after the first three starts; the
      fourth fails the job. */
  lemma FailedTry(s: State, j: nat, env: Env)
    requires Life(s) && j < |s.jobs| && s.jobs[j].status == JobRunning && Handle(s, s.jobs[j], env).1
    ensures var t, job := RunJobStep(s, j, env), s.jobs[j];
      && j < |t.jobs| && 1 <= job.attempts <= 4 && t.jobs[j].attempts == job.attempts
      && (job.attempts < 4 ==> t.jobs[j].status == JobPending && t.jobs[j].runAt == env.now + Minutes(5 * job.attempts))
      && (job.attempts == 4 ==> t.jobs[j].status == JobFailed)
  {
    RunningWasStarted(s, j);
    HandleKeepsJob(s, j, env);
    TryConcluded(Handle(s, s.jobs[j], env).0, j, env.now);
  }

  /** And with it the reservation that is its payload. */
  lemma FourthTryFailsRow(s: State, j: nat, env: Env, i: nat)
    requires Life(s) && j < |s.jobs| && s.jobs[j].status == JobRunning && Handle(s, s.jobs[j], env).1
    requires s.jobs[j].attempts == 4 && i < |s.reservations| && s.reservations[i].id == s.jobs[j].payload
    ensures var t := RunJobStep(s, j, env); i < |t.reservations| && t.reservations[i].status == ResFailed
  {
    RunningWasStarted(s, j);
    HandleKeepsJob(s, j, env);
    StepKeepsLife(s, RunJob(j, env));
    SchedulerPlan.OnlyPlansAddRows(s, RunJob(j, env));
    var u, t := Handle(s, s.jobs[j], env).0, RunJobStep(s, j, env);
    assert t.reservations[i].id == s.jobs[j].payload;
    OnlyIdFails(u, j, env.now, t);
  }

  lemma RunningWasStarted(s: State, j: nat)
    requires Life(s) && j < |s.jobs| && s.jobs[j].status == JobRunning
    ensures 1 <= s.jobs[j].attempts <= 4 && s.jobs[j].payload != ""
  {
    assert JobOk(s.reservations, s.jobs[j]);
  }

  lemma TryConcluded(s: State, j: nat, now: Instant)
    requires j < |s.jobs| && 1 <= s.jobs[j].attempts <= 4
    ensures var t, job := Conclude(s, j, true, now), s.jobs[j];
      && |t.jobs| == |s.jobs| && t.jobs[j].attempts == job.attempts
      && (job.attempts < 4 ==> t.jobs[j].status == JobPending && t.jobs[j].runAt == now + Minutes(5 * job.attempts))
      && (job.attempts == 4 ==> t.jobs[j].status == JobFailed)
  {}

  lemma OnlyIdFails(s: State, j: nat, now: Instant, t: State)
    requires j < |s.jobs| && s.jobs[j].attempts == 4 && t == Conclude(s, j, true, now) && RowsOk(t.reservations)
    requires s.jobs[j].payload != ""
    ensures forall i | 0 <= i < |t.reservations| && t.reservations[i].id == s.jobs[j].payload ::
      t.reservations[i].status == ResFailed
  {
    var o := IndexOf(s.reservations, s.jobs[j].payload);
    forall i | 0 <= i < |t.reservations| && t.reservations[i].id == s.jobs[j].payload
      ensures i == o
    {
      assert s.reservations[i].id == s.jobs[j].payload;
      assert t.reservations[o].id == t.reservations[i].id;
    }
  }
}
