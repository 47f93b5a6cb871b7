/** Nothing of a cycle is left without a job: every posted reservation with replies has
    the job of its next reply, or of its end, under way, unless such a job was lost. */
module SchedulerCarried {
  import opened Text
  import opened Schedule
  import opened Scheduler
  import opened SchedulerLife
  import opened SchedulerCutOff
  import opened SchedulerPunctual
  import opened SchedulerCycle
  import SchedulerPlan

  // -------------------------------------------------------------- a job and its row

  /** The reservation ID in the payload. */
  function RowId(job: Job): string {
    if job.kind == SendReply && |job.payload| >= 36 then job.payload[..36] else job.payload
  }

  predicate OfRow(job: Job, r: Reservation) {
    job.kind != Reminder && RowId(job) == r.id
  }

  predicate JobOnTarget(rs: seq<Reservation>, job: Job) {
    forall i | 0 <= i < |rs| && OfRow(job, rs[i]) ::
      job.campaign == rs[i].campaign && (job.kind != DeletePost ==> job.ad == rs[i].ad)
  }

  /** Every post and every end is for its row's campaign, and every post for its ad. */
  predicate OnTarget(rs: seq<Reservation>, jobs: seq<Job>) {
    forall k | 0 <= k < |jobs| :: JobOnTarget(rs, jobs[k])
  }

  lemma ReplyRowId(job: Job, id: string, n: nat)
    requires job.kind == SendReply && ReplyPayload(job.payload, id, n)
    ensures RowId(job) == id
  {}

  lemma RowIdExists(rs: seq<Reservation>, job: Job)
    requires PayloadOk(rs, job) && job.kind != Reminder
    ensures IndexOf(rs, RowId(job)) < |rs| && IsUuid(RowId(job))
  {
    if job.kind == SendReply {
      var id, n :| ReplyPayload(job.payload, id, n) && SchedulerLife.Started(rs, id);
      ReplyRowId(job, id, n);
    }
  }

  // --------------------------------------------------------------- the ads as looked up

  /** Each ad is looked up by its ID. */
  ghost predicate Catalogue(ads: string -> Ad) {
    forall a: string :: ads(a).id == a && |ads(a).replies| <= INT64_MAX
  }

  /** A job that finds its ad finds that one. */
  predicate LooksUp(s: State, e: Event, ads: string -> Ad) {
    e.RunJob? && e.job < |s.jobs| && s.jobs[e.job].kind in {SendAd, SendReply} && e.env.ad.Some? ==>
      e.env.ad.value == ads(s.jobs[e.job].ad)
  }

  // ------------------------------------------------------------------ targets are kept

  /** What a handler adds is for the row and the campaign of its job. */
  predicate Continues(job: Job, of: Job, env: Env) {
    && RowId(job) == RowId(of) && job.campaign == of.campaign && of.kind in {SendAd, SendReply}
    && (job.kind == DeletePost || (job.kind == SendReply && env.ad.Some? && job.ad == env.ad.value.id))
  }

  predicate AllContinue(jobs: seq<Job>, n: nat, of: Job, env: Env) {
    forall k | n <= k < |jobs| :: Continues(jobs[k], of, env)
  }

  lemma AdContinues(s: State, job: Job, env: Env)
    requires job.kind == SendAd && IsUuid(job.payload)
    ensures AllContinue(SendAdHandler(s, job, env).0.jobs, |s.jobs|, job, env)
  {
    if PostsAd(env) {
      var more := AdJobs(job, env.ad.value, env.campaign.value, env.now);
      forall k | 0 <= k < |more|
        ensures Continues(more[k], job, env)
      {
        if more[k].kind == SendReply {
          assert ReplyPayload(more[k].payload, job.payload, 0);
          ReplyRowId(more[k], job.payload, 0);
        }
      }
    }
  }

  lemma SplitId(job: Job, id: string, n: nat)
    requires job.kind == SendReply && ReplyPayload(job.payload, id, n)
    ensures var split := SplitReplyPayload(job.payload); split.Some? ==> split.value.0 == id == RowId(job)
  {
    LastBarOf(id, n);
    ReplyRowId(job, id, n);
  }

  lemma AfterReplyContinues(of: Job, ad: Ad, id: Uuid, idx: nat, env: Env)
    requires of.kind == SendReply && RowId(of) == id && idx < |ad.replies| && env.ad == Some(ad)
    ensures Continues(AfterReply(of, ad, id, idx, env.now), of, env)
  {
    var job := AfterReply(of, ad, id, idx, env.now);
    if job.kind == SendReply {
      assert ReplyPayload(job.payload, id, idx + 1);
      ReplyRowId(job, id, idx + 1);
    }
  }

  /** The reply went out and its successor was made, or no job was. */
  lemma ReplyAdds(s: State, job: Job, env: Env)
    requires job.kind == SendReply
    ensures var jobs := SendReplyHandler(s, job, env).0.jobs;
      if Replies(s, job, env) && env.copied.Some?
      then var (id, idx) := SplitReplyPayload(job.payload).value;
        jobs == s.jobs + [AfterReply(job, env.ad.value, s.reservations[IndexOf(s.reservations, id)].id, idx, env.now)]
      else jobs == s.jobs
  {}

  lemma ReplyContinues(s: State, job: Job, env: Env)
    requires job.kind == SendReply && PayloadOk(s.reservations, job)
    ensures AllContinue(SendReplyHandler(s, job, env).0.jobs, |s.jobs|, job, env)
  {
    ReplyAdds(s, job, env);
    if Replies(s, job, env) && env.copied.Some? {
      PayloadSplits(s.reservations, job);
      AfterReplyContinues(job, env.ad.value, RowId(job), SplitReplyPayload(job.payload).value.1, env);
    }
  }

  lemma PayloadSplits(rs: seq<Reservation>, job: Job)
    requires job.kind == SendReply && PayloadOk(rs, job)
    ensures var split := SplitReplyPayload(job.payload); split.Some? ==> split.value.0 == RowId(job)
    ensures IsUuid(RowId(job))
  {
    var id, n :| ReplyPayload(job.payload, id, n) && SchedulerLife.Started(rs, id);
    SplitId(job, id, n);
  }

  lemma JobContinues(s: State, j: nat, env: Env)
    requires Life(s) && j < |s.jobs|
    ensures var t := RunJobStep(s, j, env); |s.jobs| <= |t.jobs| && AllContinue(t.jobs, |s.jobs|, s.jobs[j], env)
  {
    if s.jobs[j].status == JobRunning {
      assert JobOk(s.reservations, s.jobs[j]);
      var (t, err) := Handle(s, s.jobs[j], env);
      HandleKeepsJob(s, j, env);
      HandleContinues(s, s.jobs[j], env);
      NewJobsConclude(t, j, err, env, |s.jobs|, s.jobs[j]);
    }
  }

  lemma HandleContinues(s: State, job: Job, env: Env)
    requires PayloadOk(s.reservations, job)
    ensures var t := Handle(s, job, env).0; |s.jobs| <= |t.jobs| && AllContinue(t.jobs, |s.jobs|, job, env)
  {
    match job.kind
    case SendAd => AdContinues(s, job, env);
    case SendReply => ReplyContinues(s, job, env);
    case DeletePost =>
    case Reminder =>
  }

  lemma NewJobsConclude(s: State, j: nat, err: bool, env: Env, n: nat, of: Job)
    requires j < n <= |s.jobs| && AllContinue(s.jobs, n, of, env)
    ensures AllContinue(Conclude(s, j, err, env.now).jobs, n, of, env)
  {
    var t := Conclude(s, j, err, env.now);
    assert forall k | n <= k < |t.jobs| :: t.jobs[k] == s.jobs[k];
  }

  lemma NewJobOnTarget(rs: seq<Reservation>, job: Job, of: Job, env: Env, ads: string -> Ad)
    requires Catalogue(ads) && JobOnTarget(rs, of) && Continues(job, of, env)
    requires env.ad.Some? && of.kind in {SendAd, SendReply} ==> env.ad.value == ads(of.ad)
    ensures JobOnTarget(rs, job)
  {
    assert ads(of.ad).id == of.ad;
    assert forall i | 0 <= i < |rs| && OfRow(job, rs[i]) :: OfRow(of, rs[i]);
  }

  lemma OldJobOnTarget(rs: seq<Reservation>, qs: seq<Reservation>, a: Job, b: Job)
    requires JobOnTarget(rs, a) && JobEvolves(a, b) && KeepSlots(rs, qs) && |qs| == |rs|
    ensures JobOnTarget(qs, b)
  {
    assert forall i | 0 <= i < |qs| && OfRow(b, qs[i]) :: OfRow(a, rs[i]);
  }

  lemma JobKeepsTargets(s: State, j: nat, env: Env, ads: string -> Ad)
    requires Life(s) && Catalogue(ads) && OnTarget(s.reservations, s.jobs) && LooksUp(s, RunJob(j, env), ads)
    ensures var t := RunJobStep(s, j, env); OnTarget(t.reservations, t.jobs)
  {
    var t := RunJobStep(s, j, env);
    OthersGrow(s, RunJob(j, env));
    forall k | 0 <= k < |t.jobs|
      ensures JobOnTarget(t.reservations, t.jobs[k])
    {
      if k < |s.jobs| {
        OldJobOnTarget(s.reservations, t.reservations, s.jobs[k], t.jobs[k]);
      } else {
        JobContinues(s, j, env);
        OldJobOnTarget(s.reservations, t.reservations, s.jobs[j], s.jobs[j]);
        NewJobOnTarget(t.reservations, t.jobs[k], s.jobs[j], env, ads);
      }
    }
  }

  lemma PassKeepsTargets(s: State, t: State, now: Instant, lead: int)
    requires Life(s) && Adds(s, t, now, lead) && RowsOk(t.reservations) && OnTarget(s.reservations, s.jobs)
    ensures OnTarget(t.reservations, t.jobs)
  {
    forall k | 0 <= k < |t.jobs|
      ensures JobOnTarget(t.reservations, t.jobs[k])
    {
      if k < |s.jobs| {
        assert JobOk(s.reservations, s.jobs[k]);
        OldJobStaysOnTarget(s, t, now, lead, k);
      } else {
        NewSendOnTarget(s, t, now, lead, k);
      }
    }
  }

  lemma OldJobStaysOnTarget(s: State, t: State, now: Instant, lead: int, k: nat)
    requires Adds(s, t, now, lead) && k < |s.jobs| && RowsOk(t.reservations)
    requires JobOk(s.reservations, s.jobs[k]) && JobOnTarget(s.reservations, s.jobs[k])
    ensures JobOnTarget(t.reservations, t.jobs[k])
  {
    assert OnlyStatus(s.jobs[k], t.jobs[k]);
    if s.jobs[k].kind != Reminder {
      RowIdExists(s.reservations, s.jobs[k]);
      var o := IndexOf(s.reservations, RowId(s.jobs[k]));
      assert SameSlot(s.reservations[o], t.reservations[o]);
      assert forall i | 0 <= i < |t.reservations| && OfRow(t.jobs[k], t.reservations[i]) :: i == o;
    }
  }

  lemma NewSendOnTarget(s: State, t: State, now: Instant, lead: int, k: nat)
    requires Adds(s, t, now, lead) && |s.jobs| <= k < |t.jobs| && RowsOk(t.reservations)
    ensures JobOnTarget(t.reservations, t.jobs[k])
  {
    var i := |s.reservations| + RowOf(|s.jobs|, k, lead);
    assert Served(|s.jobs|, t.reservations[i], t.jobs, i - |s.reservations|, now, lead);
  }

  lemma StepKeepsTargets(s: State, e: Event, ads: string -> Ad)
    requires Life(s) && Catalogue(ads) && OnTarget(s.reservations, s.jobs) && LooksUp(s, e, ads)
    ensures var t := Step(s, e); OnTarget(t.reservations, t.jobs)
  {
    var t := Step(s, e);
    StepKeepsLife(s, e);
    if e.Plan? {
      PassServesRows(s, e.campaigns, e.now, e.reminderLead, e.newId);
      PassKeepsTargets(s, t, e.now, e.reminderLead);
    } else if e.RunJob? {
      JobKeepsTargets(s, e.job, e.env, ads);
    } else {
      OthersGrow(s, e);
      forall k | 0 <= k < |t.jobs|
        ensures JobOnTarget(t.reservations, t.jobs[k])
      {
        OldJobOnTarget(s.reservations, t.reservations, s.jobs[k], t.jobs[k]);
      }
    }
  }

  // ------------------------------------------------------------------------- carriers

  /** The job is to send the row's next reply, or after the n-th to end the cycle, and is
      under way. */
  predicate Carries(job: Job, r: Reservation, n: nat) {
    && job.status in {JobPending, JobRunning}
    && if r.replyIndex + 1 < n then job.kind == SendReply && job.payload == Bar(r.id, Decimal(r.replyIndex + 1))
       else job.kind == DeletePost && job.payload == r.id
  }

  ghost predicate Carried(jobs: seq<Job>, r: Reservation, n: nat) {
    exists k :: 0 <= k < |jobs| && Carries(jobs[k], r, n)
  }

  /** The row has been posted and shows something, and its ad has replies. */
  predicate HasCycle(r: Reservation, ads: string -> Ad) {
    r.status == ResSent && ads(r.ad).replies != []
  }

  function Length(r: Reservation, ads: string -> Ad): nat {
    |ads(r.ad).replies|
  }

  ghost predicate RowCarried(s: State, i: nat, ads: string -> Ad)
    requires i < |s.reservations|
  {
    HasCycle(s.reservations[i], ads) ==> Carried(s.jobs, s.reservations[i], Length(s.reservations[i], ads))
  }

  predicate IndexesOk(rs: seq<Reservation>) {
    forall i | 0 <= i < |rs| && rs[i].status == ResSent :: rs[i].replyIndex >= -1
  }

  /** The row stands where it stood in its cycle. */
  predicate KeepsPlace(r: Reservation, q: Reservation) {
    q.id == r.id && q.ad == r.ad && q.status == r.status && q.replyIndex == r.replyIndex
  }

  predicate AllKeepPlace(rs: seq<Reservation>, qs: seq<Reservation>) {
    |qs| == |rs| && forall i | 0 <= i < |rs| :: KeepsPlace(rs[i], qs[i])
  }

  /** All but row i0. */
  predicate OthersKeepPlace(rs: seq<Reservation>, qs: seq<Reservation>, i0: nat) {
    |qs| == |rs| && forall i | 0 <= i < |rs| && i != i0 :: KeepsPlace(rs[i], qs[i])
  }

  lemma CarriedStays(jobs: seq<Job>, jobs': seq<Job>, r: Reservation, q: Reservation, n: nat, k: nat)
    requires k < |jobs| && Carries(jobs[k], r, n) && KeepsPlace(r, q)
    requires k < |jobs'| && jobs'[k].kind == jobs[k].kind && jobs'[k].payload == jobs[k].payload
    requires jobs'[k].status in {JobPending, JobRunning}
    ensures Carried(jobs', q, n)
  {
    assert Carries(jobs'[k], q, n);
  }

  // ------------------------------------------------- what a handler does to rows and jobs

  lemma AdPlaces(s: State, job: Job, env: Env, i0: nat)
    requires PostsAd(env) && IndexOf(s.reservations, job.payload) == i0 < |s.reservations| && job.payload != ""
    requires job.kind == SendAd
    ensures var t := Handle(s, job, env).0;
      && OthersKeepPlace(s.reservations, t.reservations, i0)
      && t.jobs == s.jobs + AdJobs(job, env.ad.value, env.campaign.value, env.now) && !Handle(s, job, env).1
      && t.reservations[i0].status == ResSent && t.reservations[i0].replyIndex == -1
      && t.reservations[i0].id == s.reservations[i0].id && t.reservations[i0].ad == s.reservations[i0].ad
  {
    AdRowsPlaces(s.reservations, job, i0, env.copied.value, env, NetAt(job, env.campaign.value, env.now));
  }

  lemma AdRowsPlaces(rs: seq<Reservation>, job: Job, i0: nat, m: int, env: Env, end: Option<Instant>)
    requires i0 < |rs|
    ensures var qs := AdRows(rs, job.channel, i0, m, env, end);
      && OthersKeepPlace(rs, qs, i0) && qs[i0].status == ResSent && qs[i0].replyIndex == -1
      && qs[i0].id == rs[i0].id && qs[i0].ad == rs[i0].ad
  {}

  lemma ReplyRowsPlaces(
    rs: seq<Reservation>, channel: string, i0: nat, idx: nat, m: int, env: Env, end: Option<Instant>)
    requires i0 < |rs|
    ensures var qs := ReplyRows(rs, channel, i0, idx, m, env, end);
      && OthersKeepPlace(rs, qs, i0) && qs[i0].status == rs[i0].status && qs[i0].replyIndex == idx
      && qs[i0].id == rs[i0].id && qs[i0].ad == rs[i0].ad
  {}

  lemma ClearKeepsPlace(s: State, i0: nat)
    requires i0 < |s.reservations|
    ensures AllKeepPlace(s.reservations, ClearReply(s, i0).reservations) && ClearReply(s, i0).jobs == s.jobs
  {}

  /** The reply handler stops short of posting: nothing moves. */
  lemma ReplyStops(s: State, job: Job, env: Env)
    requires job.kind == SendReply && !(Replies(s, job, env) && env.copied.Some?)
    ensures var t := Handle(s, job, env).0; AllKeepPlace(s.reservations, t.reservations) && t.jobs == s.jobs
  {
    if Replies(s, job, env) {
      ClearKeepsPlace(s, IndexOf(s.reservations, SplitReplyPayload(job.payload).value.0));
    }
  }

  lemma ReplyPlaces(s: State, job: Job, env: Env)
    requires job.kind == SendReply && Replies(s, job, env) && env.copied.Some?
    ensures var (id, idx) := SplitReplyPayload(job.payload).value;
      var i0, t := IndexOf(s.reservations, id), Handle(s, job, env).0;
      && OthersKeepPlace(s.reservations, t.reservations, i0) && !Handle(s, job, env).1
      && t.reservations[i0].status == s.reservations[i0].status && t.reservations[i0].replyIndex == idx
      && t.reservations[i0].id == s.reservations[i0].id && t.reservations[i0].ad == s.reservations[i0].ad
      && t.jobs == s.jobs + [AfterReply(job, env.ad.value, s.reservations[i0].id, idx, env.now)]
  {
    var (id, idx) := SplitReplyPayload(job.payload).value;
    var i0 := IndexOf(s.reservations, id);
    var c := ClearReply(s, i0);
    ClearKeepsPlace(s, i0);
    ReplyRowsPlaces(c.reservations, job.channel, i0, idx, env.copied.value, env, ReplyEnd(env.ad.value, idx, env.now));
  }

  /** How a run job is concluded. */
  lemma Concluded(s: State, j: nat, err: bool, now: Instant)
    requires j < |s.jobs|
    ensures var t, job := Conclude(s, j, err, now), s.jobs[j];
      && |t.jobs| == |s.jobs| && |t.reservations| == |s.reservations|
      && (forall k | 0 <= k < |s.jobs| && k != j :: t.jobs[k] == s.jobs[k])
      && t.jobs[j].kind == job.kind && t.jobs[j].payload == job.payload
      && t.jobs[j].status == (if !err then JobDone else if job.attempts <= MAX_ATTEMPTS then JobPending else JobFailed)
      && forall i | 0 <= i < |s.reservations| ::
           t.reservations[i] == s.reservations[i] || t.reservations[i] == s.reservations[i].(status := ResFailed)
  {}

  // ------------------------------------------------------------------ one job, one row

  /** Running it, the program loses the job that carries row i: a reply that does not find
      its ad, or fails for the fourth time. */
  predicate Drops(s: State, j: nat, env: Env, i: nat, ads: string -> Ad)
    requires i < |s.reservations|
  {
    && j < |s.jobs| && s.jobs[j].status == JobRunning && s.jobs[j].kind == SendReply
    && Carries(s.jobs[j], s.reservations[i], Length(s.reservations[i], ads))
    && (env.ad.None? || (s.jobs[j].attempts > MAX_ATTEMPTS && (!env.channelFound || env.copied.None?)))
  }

  /** A send job carries nothing; when it posts, the first reply carries its row. */
  lemma SendCarries(s: State, j: nat, env: Env, i: nat, ads: string -> Ad)
    requires Life(s) && j < |s.jobs| && s.jobs[j].status == JobRunning && s.jobs[j].kind == SendAd
    requires i < |s.reservations| && RowCarried(s, i, ads) && Catalogue(ads) && LooksUp(s, RunJob(j, env), ads)
    requires JobOnTarget(s.reservations, s.jobs[j])
    ensures var t := RunJobStep(s, j, env); i < |t.reservations| && RowCarried(t, i, ads)
  {
    assert JobOk(s.reservations, s.jobs[j]);
    if PostsAd(env) {
      PostedAdCarries(s, j, env, i, IndexOf(s.reservations, s.jobs[j].payload), ads);
    } else {
      IdleAdCarries(s, j, env, i, ads);
    }
  }

  lemma IdleAdCarries(s: State, j: nat, env: Env, i: nat, ads: string -> Ad)
    requires j < |s.jobs| && s.jobs[j].status == JobRunning && s.jobs[j].kind == SendAd && !PostsAd(env)
    requires i < |s.reservations| && RowCarried(s, i, ads)
    ensures var t := RunJobStep(s, j, env); i < |t.reservations| && RowCarried(t, i, ads)
  {
    var (u, err) := Handle(s, s.jobs[j], env);
    assert u == s;
    Concluded(u, j, err, env.now);
    OthersCarried(s, RunJobStep(s, j, env), j, i, ads);
  }

  lemma PostedAdCarries(s: State, j: nat, env: Env, i: nat, i0: nat, ads: string -> Ad)
    requires j < |s.jobs| && s.jobs[j].status == JobRunning && s.jobs[j].kind == SendAd && PostsAd(env)
    requires IndexOf(s.reservations, s.jobs[j].payload) == i0 < |s.reservations| && s.jobs[j].payload != ""
    requires i < |s.reservations| && RowCarried(s, i, ads) && Catalogue(ads) && LooksUp(s, RunJob(j, env), ads)
    requires JobOnTarget(s.reservations, s.jobs[j])
    ensures var t := RunJobStep(s, j, env); i < |t.reservations| && RowCarried(t, i, ads)
  {
    var t, u := RunJobStep(s, j, env), Handle(s, s.jobs[j], env).0;
    HandleKeepsJob(s, j, env);
    AdPlaces(s, s.jobs[j], env, i0);
    Concluded(u, j, false, env.now);
    if i == i0 {
      FirstReplyCarries(s, u, t, j, env, i, ads);
    } else {
      OthersCarried(s, t, j, i, ads);
    }
  }

  /** A row that keeps its place, of which j does not carry, stays carried by jobs that stay. */
  lemma OthersCarried(s: State, t: State, j: nat, i: nat, ads: string -> Ad)
    requires i < |s.reservations| && i < |t.reservations| && RowCarried(s, i, ads)
    requires KeepsPlace(s.reservations[i], t.reservations[i]) || t.reservations[i].status == ResFailed
    requires j < |s.jobs| <= |t.jobs| && forall k | 0 <= k < |s.jobs| && k != j :: t.jobs[k] == s.jobs[k]
    requires !Carries(s.jobs[j], s.reservations[i], Length(s.reservations[i], ads))
    ensures RowCarried(t, i, ads)
  {
    if HasCycle(t.reservations[i], ads) {
      var r, n := s.reservations[i], Length(s.reservations[i], ads);
      var k :| 0 <= k < |s.jobs| && Carries(s.jobs[k], r, n);
      CarriedStays(s.jobs, t.jobs, r, t.reservations[i], n, k);
    }
  }

  lemma FirstReplyCarries(s: State, u: State, t: State, j: nat, env: Env, i: nat, ads: string -> Ad)
    requires Catalogue(ads) && LooksUp(s, RunJob(j, env), ads)
    requires j < |s.jobs| && s.jobs[j].kind == SendAd && PostsAd(env)
    requires i < |s.reservations| && s.jobs[j].payload == s.reservations[i].id && JobOnTarget(s.reservations, s.jobs[j])
    requires u.jobs == s.jobs + AdJobs(s.jobs[j], env.ad.value, env.campaign.value, env.now)
    requires |t.jobs| == |u.jobs| && forall k | 0 <= k < |u.jobs| && k != j :: t.jobs[k] == u.jobs[k]
    requires i < |t.reservations| && t.reservations[i].replyIndex == -1
    requires t.reservations[i].id == s.reservations[i].id && t.reservations[i].ad == s.reservations[i].ad
    ensures RowCarried(t, i, ads)
  {
    var q := t.reservations[i];
    assert OfRow(s.jobs[j], s.reservations[i]);
    if HasCycle(q, ads) {
      assert env.ad.value == ads(q.ad);
      assert t.jobs[|t.jobs| - 1] == u.jobs[|u.jobs| - 1];
      assert Carries(t.jobs[|t.jobs| - 1], q, Length(q, ads));
    }
  }

  lemma CarrierOfRow(job: Job, r: Reservation, n: nat)
    requires Carries(job, r, n) && r.replyIndex >= -1
    ensures RowId(job) == r.id && job.kind != Reminder
  {
    if job.kind == SendReply {
      assert ReplyPayload(job.payload, r.id, r.replyIndex + 1);
      ReplyRowId(job, r.id, r.replyIndex + 1);
    }
  }

  /** The reply that went out is followed by the job that carries its row from then on. */
  lemma NextReplyCarries(s: State, u: State, t: State, j: nat, env: Env, i: nat, idx: nat, ads: string -> Ad)
    requires j < |s.jobs| && s.jobs[j].kind == SendReply && Catalogue(ads) && LooksUp(s, RunJob(j, env), ads)
    requires env.ad.Some? && idx < |env.ad.value.replies|
    requires i < |s.reservations| && RowId(s.jobs[j]) == s.reservations[i].id && JobOnTarget(s.reservations, s.jobs[j])
    requires u.jobs == s.jobs + [AfterReply(s.jobs[j], env.ad.value, s.reservations[i].id, idx, env.now)]
    requires |t.jobs| == |u.jobs| && forall k | 0 <= k < |u.jobs| && k != j :: t.jobs[k] == u.jobs[k]
    requires i < |t.reservations| && t.reservations[i].replyIndex == idx
    requires t.reservations[i].id == s.reservations[i].id && t.reservations[i].ad == s.reservations[i].ad
    ensures RowCarried(t, i, ads)
  {
    var q := t.reservations[i];
    assert OfRow(s.jobs[j], s.reservations[i]);
    if HasCycle(q, ads) {
      assert env.ad.value == ads(q.ad);
      assert t.jobs[|t.jobs| - 1] == u.jobs[|u.jobs| - 1];
      assert Carries(t.jobs[|t.jobs| - 1], q, Length(q, ads));
    }
  }

  lemma PostedReplyCarries(s: State, j: nat, env: Env, i: nat, ads: string -> Ad)
    requires Life(s) && j < |s.jobs| && s.jobs[j].status == JobRunning && s.jobs[j].kind == SendReply
    requires i < |s.reservations| && RowCarried(s, i, ads) && Catalogue(ads) && LooksUp(s, RunJob(j, env), ads)
    requires JobOnTarget(s.reservations, s.jobs[j]) && IndexesOk(s.reservations)
    requires Replies(s, s.jobs[j], env) && env.copied.Some?
    ensures var t := RunJobStep(s, j, env); i < |t.reservations| && RowCarried(t, i, ads)
  {
    var job, t := s.jobs[j], RunJobStep(s, j, env);
    assert JobOk(s.reservations, job);
    PayloadSplits(s.reservations, job);
    var (id, idx) := SplitReplyPayload(job.payload).value;
    var i0, u := IndexOf(s.reservations, id), Handle(s, job, env).0;
    ReplyPlaces(s, job, env);
    HandleKeepsJob(s, j, env);
    Concluded(u, j, false, env.now);
    if i == i0 {
      NextReplyCarries(s, u, t, j, env, i, idx, ads);
    } else if s.reservations[i].status == ResSent {
      if Carries(job, s.reservations[i], Length(s.reservations[i], ads)) {
        CarrierOfRow(job, s.reservations[i], Length(s.reservations[i], ads));
      }
      OthersCarried(s, t, j, i, ads);
    }
  }

  /** The carrier of a posted row stops only for want of its ad, its channel or the copy. */
  lemma CarrierStops(s: State, j: nat, env: Env, i: nat, ads: string -> Ad)
    requires Life(s) && j < |s.jobs| && s.jobs[j].kind == SendReply && IndexesOk(s.reservations)
    requires i < |s.reservations| && HasCycle(s.reservations[i], ads) && Catalogue(ads)
    requires Carries(s.jobs[j], s.reservations[i], Length(s.reservations[i], ads))
    requires JobOnTarget(s.reservations, s.jobs[j]) && LooksUp(s, RunJob(j, env), ads) && env.ad.Some?
    ensures Replies(s, s.jobs[j], env) <==> env.channelFound
    ensures !(env.channelFound && env.copied.Some?) ==> Handle(s, s.jobs[j], env).1
  {
    assert RowOk(s.reservations[i]) && IndexOf(s.reservations, s.reservations[i].id) == i;
    CarrierFinds(s, j, env, i, ads);
    ReplyStopsFor(s, s.jobs[j], env, i, s.reservations[i].replyIndex + 1);
  }

  lemma CarrierFinds(s: State, j: nat, env: Env, i: nat, ads: string -> Ad)
    requires j < |s.jobs| && i < |s.reservations| && s.jobs[j].kind == SendReply && s.reservations[i].replyIndex >= -1
    requires Carries(s.jobs[j], s.reservations[i], Length(s.reservations[i], ads)) && Catalogue(ads)
    requires JobOnTarget(s.reservations, s.jobs[j]) && LooksUp(s, RunJob(j, env), ads) && env.ad.Some?
    ensures SplitReplyPayload(s.jobs[j].payload) == Some((s.reservations[i].id, s.reservations[i].replyIndex + 1))
    ensures env.ad.value == ads(s.reservations[i].ad)
  {
    var r := s.reservations[i];
    CarrierOfRow(s.jobs[j], r, Length(r, ads));
    assert OfRow(s.jobs[j], r) && ads(r.ad).id == r.ad;
    SplitReadsBack(r.id, r.replyIndex + 1);
  }

  lemma ReplyStopsFor(s: State, job: Job, env: Env, i: nat, idx: nat)
    requires job.kind == SendReply && i < |s.reservations| && IndexOf(s.reservations, s.reservations[i].id) == i
    requires SplitReplyPayload(job.payload) == Some((s.reservations[i].id, idx as int))
    requires s.reservations[i].live != [] && env.ad.Some? && idx < |env.ad.value.replies|
    ensures Replies(s, job, env) <==> env.channelFound
    ensures !(env.channelFound && env.copied.Some?) ==> Handle(s, job, env).1
  {}

  lemma StoppedReplyCarries(s: State, j: nat, env: Env, i: nat, ads: string -> Ad)
    requires Life(s) && j < |s.jobs| && s.jobs[j].status == JobRunning && s.jobs[j].kind == SendReply
    requires i < |s.reservations| && RowCarried(s, i, ads) && Catalogue(ads) && LooksUp(s, RunJob(j, env), ads)
    requires JobOnTarget(s.reservations, s.jobs[j]) && IndexesOk(s.reservations)
    requires !(Replies(s, s.jobs[j], env) && env.copied.Some?) && !Drops(s, j, env, i, ads)
    ensures var t := RunJobStep(s, j, env); i < |t.reservations| && RowCarried(t, i, ads)
  {
    var job, r, n := s.jobs[j], s.reservations[i], Length(s.reservations[i], ads);
    var (u, err) := Handle(s, job, env);
    var t := RunJobStep(s, j, env);
    ReplyStops(s, job, env);
    Concluded(u, j, err, env.now);
    if HasCycle(t.reservations[i], ads) {
      if Carries(job, r, n) {
        CarrierStops(s, j, env, i, ads);
        CarriedStays(s.jobs, t.jobs, r, t.reservations[i], n, j);
      } else {
        OthersCarried(s, t, j, i, ads);
      }
    }
  }

  /** Ending one row's cycle cancels no job that carries another row. */
  lemma EndSparesCarrier(s: State, id: Uuid, chFound: bool, i: nat, k: nat, n: nat)
    requires Life(s) && k < |s.jobs| && i < |s.reservations| && s.reservations[i].id != id
    requires Carries(s.jobs[k], s.reservations[i], n) && s.reservations[i].replyIndex >= -1
    ensures EndCycle(s, id, chFound).jobs[k] == s.jobs[k]
  {
    assert JobOk(s.reservations, s.jobs[k]);
    CarrierOfRow(s.jobs[k], s.reservations[i], n);
    BelongsExactly(s.reservations, s.jobs[k], id);
    if s.jobs[k].kind == SendReply {
      forall m | ReplyPayload(s.jobs[k].payload, id, m)
        ensures false
      {
        ReplyRowId(s.jobs[k], id, m);
      }
    }
  }

  lemma EndCarries(s: State, j: nat, env: Env, i: nat, ads: string -> Ad)
    requires Life(s) && j < |s.jobs| && s.jobs[j].status == JobRunning && s.jobs[j].kind == DeletePost
    requires i < |s.reservations| && RowCarried(s, i, ads) && IndexesOk(s.reservations)
    ensures var t := RunJobStep(s, j, env); i < |t.reservations| && RowCarried(t, i, ads)
  {
    var job, r, t := s.jobs[j], s.reservations[i], RunJobStep(s, j, env);
    assert JobOk(s.reservations, job);
    var u := EndCycle(s, job.payload, env.channelFound);
    Concluded(u, j, false, env.now);
    if r.id != job.payload && HasCycle(r, ads) {
      var n := Length(r, ads);
      var k :| 0 <= k < |s.jobs| && Carries(s.jobs[k], r, n);
      EndSparesCarrier(s, job.payload, env.channelFound, i, k, n);
      assert k != j;
      CarriedStays(s.jobs, t.jobs, r, t.reservations[i], n, k);
    } else if r.id == job.payload {
      assert IndexOf(s.reservations, job.payload) == i;
    }
  }

  lemma ReminderCarries(s: State, j: nat, env: Env, i: nat, ads: string -> Ad)
    requires j < |s.jobs| && s.jobs[j].status == JobRunning && s.jobs[j].kind == Reminder
    requires i < |s.reservations| && RowCarried(s, i, ads)
    ensures var t := RunJobStep(s, j, env); i < |t.reservations| && RowCarried(t, i, ads)
  {
    Concluded(s, j, env.reminderFails, env.now);
    OthersCarried(s, RunJobStep(s, j, env), j, i, ads);
  }

  /** A job that does not lose the row's carrier keeps the row carried. */
  lemma JobCarries(s: State, j: nat, env: Env, i: nat, ads: string -> Ad)
    requires Life(s) && OnTarget(s.reservations, s.jobs) && IndexesOk(s.reservations)
    requires i < |s.reservations| && RowCarried(s, i, ads) && Catalogue(ads) && LooksUp(s, RunJob(j, env), ads)
    requires !Drops(s, j, env, i, ads)
    ensures var t := RunJobStep(s, j, env); i < |t.reservations| && RowCarried(t, i, ads)
  {
    if j < |s.jobs| && s.jobs[j].status == JobRunning {
      match s.jobs[j].kind
      case SendAd => SendCarries(s, j, env, i, ads);
      case SendReply =>
        if Replies(s, s.jobs[j], env) && env.copied.Some? {
          PostedReplyCarries(s, j, env, i, ads);
        } else {
          StoppedReplyCarries(s, j, env, i, ads);
        }
      case DeletePost => EndCarries(s, j, env, i, ads);
      case Reminder => ReminderCarries(s, j, env, i, ads);
    }
  }

  // --------------------------------------------------------------------- other events

  lemma CutOffCarries(s: State, campaign: string, chs: set<string>, i: nat, ads: string -> Ad)
    requires OnTarget(s.reservations, s.jobs) && IndexesOk(s.reservations)
    requires i < |s.reservations| && RowCarried(s, i, ads)
    ensures RowCarried(CutOffCampaign(s, campaign, chs), i, ads)
  {
    var t, r := CutOffCampaign(s, campaign, chs), s.reservations[i];
    if HasCycle(t.reservations[i], ads) {
      var n := Length(r, ads);
      assert t.reservations[i] == r && r.campaign != campaign;
      var k :| 0 <= k < |s.jobs| && Carries(s.jobs[k], r, n);
      CarrierOfRow(s.jobs[k], r, n);
      assert JobOnTarget(s.reservations, s.jobs[k]) && OfRow(s.jobs[k], r);
      CarriedStays(s.jobs, t.jobs, r, r, n, k);
    }
  }

  lemma ChannelCarries(s: State, cm: Campaign, ad: Ad, channel: string, start: Instant, now: Instant, lead: int,
                       newId: nat -> Uuid, ads: string -> Ad)
    requires AllCarried(s, ads)
    ensures AllCarried(PlanChannel(s, cm, ad, channel, start, now, lead, newId), ads)
  {
    var t := PlanChannel(s, cm, ad, channel, start, now, lead, newId);
    forall i | 0 <= i < |t.reservations|
      ensures RowCarried(t, i, ads)
    {
      if i < |s.reservations| && HasCycle(t.reservations[i], ads) {
        assert RowCarried(s, i, ads);
        var r, n := s.reservations[i], Length(s.reservations[i], ads);
        var k :| 0 <= k < |s.jobs| && Carries(s.jobs[k], r, n);
        CarriedStays(s.jobs, t.jobs, r, r, n, k);
      }
    }
  }

  lemma {:induction false} ChannelsCarry(
    s: State, cm: Campaign, ad: Ad, channels: seq<string>, start: Instant, now: Instant, lead: int,
    newId: nat -> Uuid, ads: string -> Ad)
    requires AllCarried(s, ads)
    ensures AllCarried(PlanChannels(s, cm, ad, channels, start, now, lead, newId), ads)
    decreases |channels|
  {
    if channels != [] {
      var most, last := channels[..|channels| - 1], channels[|channels| - 1];
      ChannelsCarry(s, cm, ad, most, start, now, lead, newId, ads);
      var u := PlanChannels(s, cm, ad, most, start, now, lead, newId);
      ChannelCarries(u, cm, ad, last, start, now, lead, newId, ads);
    }
  }

  /** Every posted row with replies is carried. */
  ghost predicate AllCarried(s: State, ads: string -> Ad) {
    forall i | 0 <= i < |s.reservations| :: RowCarried(s, i, ads)
  }

  /** What the run theorem keeps. */
  ghost predicate Going(s: State, ads: string -> Ad) {
    Life(s) && OnTarget(s.reservations, s.jobs) && IndexesOk(s.reservations) && AllCarried(s, ads)
  }

  lemma CampaignCarries(s: State, cm: Campaign, now: Instant, lead: int, newId: nat -> Uuid, ads: string -> Ad)
    requires OnTarget(s.reservations, s.jobs) && IndexesOk(s.reservations) && AllCarried(s, ads)
    ensures AllCarried(PlanCampaign(s, cm, now, lead, newId), ads)
  {
    if !InDailyWindow(now, cm.window) {
      var t := CutOffCampaign(s, cm.id, cm.found);
      forall i | 0 <= i < |t.reservations|
        ensures RowCarried(t, i, ads)
      {
        CutOffCarries(s, cm.id, cm.found, i, ads);
      }
    } else if cm.ads != [] {
      var start := CurrentWindowStart(now, cm.window);
      ChannelsCarry(s, cm, CurrentAd(cm, now), cm.channels, start, now, lead, newId, ads);
    }
  }

  lemma PlanKeepsIndexes(s: State, e: Event)
    requires e.Plan? && IndexesOk(s.reservations)
    ensures IndexesOk(Step(s, e).reservations)
  {
    PassKeepsIndexes(s, e.campaigns, e.now, e.reminderLead, e.newId);
  }

  lemma {:induction false} PassKeepsIndexes(
    s: State, campaigns: seq<Campaign>, now: Instant, lead: int, newId: nat -> Uuid)
    requires IndexesOk(s.reservations)
    ensures IndexesOk(PlanCampaigns(s, campaigns, now, lead, newId).reservations)
    decreases |campaigns|
  {
    if campaigns != [] {
      var cm := campaigns[|campaigns| - 1];
      PassKeepsIndexes(s, campaigns[..|campaigns| - 1], now, lead, newId);
      var u := PlanCampaigns(s, campaigns[..|campaigns| - 1], now, lead, newId);
      if InDailyWindow(now, cm.window) && cm.ads != [] {
        var start := CurrentWindowStart(now, cm.window);
        ChannelsKeepIndexes(u, cm, CurrentAd(cm, now), cm.channels, start, now, lead, newId);
      }
    }
  }

  lemma {:induction false} ChannelsKeepIndexes(
    s: State, cm: Campaign, ad: Ad, channels: seq<string>, start: Instant, now: Instant, lead: int, newId: nat -> Uuid)
    requires IndexesOk(s.reservations)
    ensures IndexesOk(PlanChannels(s, cm, ad, channels, start, now, lead, newId).reservations)
    decreases |channels|
  {
    if channels != [] {
      ChannelsKeepIndexes(s, cm, ad, channels[..|channels| - 1], start, now, lead, newId);
    }
  }

  lemma {:induction false} PassCarries(
    s: State, campaigns: seq<Campaign>, now: Instant, lead: int, newId: nat -> Uuid, ads: string -> Ad)
    requires Going(s, ads) && Catalogue(ads)
    ensures AllCarried(PlanCampaigns(s, campaigns, now, lead, newId), ads)
    decreases |campaigns|
  {
    if campaigns != [] {
      var most := campaigns[..|campaigns| - 1];
      var u := PlanCampaigns(s, most, now, lead, newId);
      PassCarries(s, most, now, lead, newId, ads);
      StepKeepsTargets(s, Plan(most, now, lead, newId), ads);
      PassKeepsIndexes(s, most, now, lead, newId);
      CampaignCarries(u, campaigns[|campaigns| - 1], now, lead, newId, ads);
    }
  }

  lemma HandleKeepsIndexes(s: State, job: Job, env: Env)
    requires IndexesOk(s.reservations)
    ensures IndexesOk(Handle(s, job, env).0.reservations)
  {
    match job.kind
    case SendAd => AdKeepsIndexes(s, job, env);
    case SendReply =>
      if Replies(s, job, env) && env.copied.Some? {
        ReplyPlaces(s, job, env);
      } else {
        ReplyStops(s, job, env);
      }
    case DeletePost =>
    case Reminder =>
  }

  lemma AdKeepsIndexes(s: State, job: Job, env: Env)
    requires IndexesOk(s.reservations)
    ensures IndexesOk(SendAdHandler(s, job, env).0.reservations)
  {
    var i0 := IndexOf(s.reservations, job.payload);
    if PostsAd(env) && job.payload != "" && i0 < |s.reservations| {
      AdRowsPlaces(s.reservations, job, i0, env.copied.value, env, NetAt(job, env.campaign.value, env.now));
    }
  }

  lemma JobKeepsIndexes(s: State, j: nat, env: Env)
    requires IndexesOk(s.reservations)
    ensures IndexesOk(RunJobStep(s, j, env).reservations)
  {
    if j < |s.jobs| && s.jobs[j].status == JobRunning {
      HandleKeepsIndexes(s, s.jobs[j], env);
      var (u, err) := Handle(s, s.jobs[j], env);
      HandleKeepsJob(s, j, env);
      Concluded(u, j, err, env.now);
    }
  }

  lemma StartCarries(s: State, ads: string -> Ad)
    requires AllCarried(s, ads)
    ensures AllCarried(StartJob(s), ads)
  {
    var t := StartJob(s);
    forall i | 0 <= i < |t.reservations|
      ensures RowCarried(t, i, ads)
    {
      assert RowCarried(s, i, ads);
      if HasCycle(s.reservations[i], ads) {
        var r, n := s.reservations[i], Length(s.reservations[i], ads);
        var k :| 0 <= k < |s.jobs| && Carries(s.jobs[k], r, n);
        CarriedStays(s.jobs, t.jobs, r, r, n, k);
      }
    }
  }

  /** No job of this event loses a row's carrier. */
  predicate LosesNone(s: State, e: Event, ads: string -> Ad) {
    e.RunJob? ==> forall i | 0 <= i < |s.reservations| :: !Drops(s, e.job, e.env, i, ads)
  }

  lemma StepKeepsGoing(s: State, e: Event, ads: string -> Ad)
    requires Going(s, ads) && Catalogue(ads) && LooksUp(s, e, ads) && LosesNone(s, e, ads)
    ensures Going(Step(s, e), ads)
  {
    var t := Step(s, e);
    StepKeepsLife(s, e);
    StepKeepsTargets(s, e, ads);
    match e
    case Plan(campaigns, now, lead, newId) =>
      PlanKeepsIndexes(s, e);
      PassCarries(s, campaigns, now, lead, newId, ads);
    case Fetch(_) => FetchCarries(s, e, ads);
    case StartNext => StartCarries(s, ads);
    case RunJob(j, env) =>
      JobKeepsIndexes(s, j, env);
      JobCarriesAll(s, j, env, ads);
  }

  lemma FetchCarries(s: State, e: Event, ads: string -> Ad)
    requires AllCarried(s, ads) && e.Fetch?
    ensures AllCarried(Step(s, e), ads)
  {
    var t := Step(s, e);
    assert t.jobs == s.jobs && t.reservations == s.reservations;
    forall i | 0 <= i < |t.reservations|
      ensures RowCarried(t, i, ads)
    {
      assert RowCarried(s, i, ads);
    }
  }

  lemma JobCarriesAll(s: State, j: nat, env: Env, ads: string -> Ad)
    requires Life(s) && OnTarget(s.reservations, s.jobs) && IndexesOk(s.reservations) && AllCarried(s, ads)
    requires Catalogue(ads) && LooksUp(s, RunJob(j, env), ads) && LosesNone(s, RunJob(j, env), ads)
    ensures AllCarried(RunJobStep(s, j, env), ads)
  {
    JobKeepsCount(s, j, env);
    forall i: nat | i < |s.reservations|
      ensures RowCarriedBy(s, RunJobStep(s, j, env), i, ads)
    {
      JobCarriesRow(s, j, env, i, ads);
    }
    AllRowsCarried(s, RunJobStep(s, j, env), ads);
  }

  lemma JobKeepsCount(s: State, j: nat, env: Env)
    ensures |RunJobStep(s, j, env).reservations| == |s.reservations|
  {
    SchedulerPlan.OnlyPlansAddRows(s, RunJob(j, env));
  }

  lemma JobCarriesRow(s: State, j: nat, env: Env, i: nat, ads: string -> Ad)
    requires Life(s) && OnTarget(s.reservations, s.jobs) && IndexesOk(s.reservations) && AllCarried(s, ads)
    requires Catalogue(ads) && LooksUp(s, RunJob(j, env), ads) && LosesNone(s, RunJob(j, env), ads)
    requires i < |s.reservations|
    ensures RowCarriedBy(s, RunJobStep(s, j, env), i, ads)
  {
    assert RowCarried(s, i, ads) && !Drops(s, j, env, i, ads);
    JobCarries(s, j, env, i, ads);
  }

  ghost predicate RowCarriedBy(s: State, t: State, i: nat, ads: string -> Ad)
    requires i < |s.reservations|
  {
    i < |t.reservations| && RowCarried(t, i, ads)
  }

  lemma AllRowsCarried(s: State, t: State, ads: string -> Ad)
    requires |t.reservations| == |s.reservations|
    requires forall i: nat | i < |s.reservations| :: RowCarriedBy(s, t, i, ads)
    ensures AllCarried(t, ads)
  {
    forall i | 0 <= i < |t.reservations|
      ensures RowCarried(t, i, ads)
    {
      assert RowCarriedBy(s, t, i, ads);
    }
  }

  /** Ads are looked up alike all the time, and no reply that carries a row is lost. */
  ghost predicate Steady(events: seq<Event>, ads: string -> Ad) {
    forall n | 0 <= n < |events| ::
      LooksUp(RunFrom(EMPTY, events[..n]), events[n], ads) && LosesNone(RunFrom(EMPTY, events[..n]), events[n], ads)
  }

  lemma SteadyBefore(events: seq<Event>, ads: string -> Ad)
    requires events != [] && Steady(events, ads)
    ensures Steady(events[..|events| - 1], ads)
  {
    var most := events[..|events| - 1];
    forall n | 0 <= n < |most|
      ensures LooksUp(RunFrom(EMPTY, most[..n]), most[n], ads) && LosesNone(RunFrom(EMPTY, most[..n]), most[n], ads)
    {
      assert most[..n] == events[..n] && most[n] == events[n];
    }
  }

  lemma {:induction false} RunKeepsGoing(events: seq<Event>, ads: string -> Ad)
    requires Catalogue(ads) && Steady(events, ads)
    ensures Going(RunFrom(EMPTY, events), ads)
    decreases |events|
  {
    if events != [] {
      SteadyBefore(events, ads);
      RunKeepsGoing(events[..|events| - 1], ads);
      StepKeepsGoing(RunFrom(EMPTY, events[..|events| - 1]), events[|events| - 1], ads);
    }
  }

  /** In every state such a run can reach, a reservation that is posted and has replies to
      come has a job of its own, waiting or running, that is to send exactly the next one;
      and after the last reply one that is to end the cycle. */
  lemma {:induction false} PostedRowsAreCarried(events: seq<Event>, i: nat, ads: string -> Ad) returns (k: nat)
    requires Catalogue(ads) && Steady(events, ads) && i < |RunFrom(EMPTY, events).reservations|
    requires var r := RunFrom(EMPTY, events).reservations[i]; r.status == ResSent && ads(r.ad).replies != []
    ensures var s := RunFrom(EMPTY, events); var r := s.reservations[i];
      && k < |s.jobs| && s.jobs[k].status in {JobPending, JobRunning} && s.jobs[k].campaign == r.campaign
      && if r.replyIndex + 1 < |ads(r.ad).replies|
         then s.jobs[k].kind == SendReply && s.jobs[k].ad == r.ad
              && s.jobs[k].payload == Bar(r.id, Decimal(r.replyIndex + 1))
         else s.jobs[k].kind == DeletePost && s.jobs[k].payload == r.id
  {
    RunKeepsGoing(events, ads);
    var s := RunFrom(EMPTY, events);
    var r := s.reservations[i];
    assert RowCarried(s, i, ads);
    k :| 0 <= k < |s.jobs| && Carries(s.jobs[k], r, Length(r, ads));
    CarrierOfRow(s.jobs[k], r, Length(r, ads));
    assert JobOnTarget(s.reservations, s.jobs[k]) && OfRow(s.jobs[k], r);
  }

  // ------------------------------------------------------------ at most one reply a row

  predicate Unfinished(job: Job) {
    job.kind == SendReply && job.status !in {JobDone, JobFailed}
  }

  /** No row has two reply jobs that may still run. */
  predicate OneReply(jobs: seq<Job>) {
    forall a, b | 0 <= a < b < |jobs| && Unfinished(jobs[a]) && Unfinished(jobs[b]) :: RowId(jobs[a]) != RowId(jobs[b])
  }

  /** Jobs stay what they are, and none that is finished comes back. */
  predicate NoneComesBack(jobs: seq<Job>, jobs': seq<Job>) {
    |jobs| <= |jobs'| && forall k | 0 <= k < |jobs| ::
      RowId(jobs'[k]) == RowId(jobs[k]) && (Unfinished(jobs'[k]) ==> Unfinished(jobs[k]))
  }

  lemma OneReplyStays(jobs: seq<Job>, jobs': seq<Job>)
    requires OneReply(jobs) && NoneComesBack(jobs, jobs') && forall k | |jobs| <= k < |jobs'| :: !Unfinished(jobs'[k])
    ensures OneReply(jobs')
  {}

  lemma OneReplyMore(jobs: seq<Job>, jobs': seq<Job>)
    requires OneReply(jobs) && NoneComesBack(jobs, jobs') && |jobs'| > |jobs|
    requires forall k | |jobs| <= k < |jobs'| - 1 :: !Unfinished(jobs'[k])
    requires forall k | 0 <= k < |jobs| && Unfinished(jobs'[k]) :: RowId(jobs[k]) != RowId(jobs'[|jobs'| - 1])
    ensures OneReply(jobs')
  {}

  lemma RunJobComesBack(s: State, j: nat, env: Env)
    requires Life(s) && j < |s.jobs| && s.jobs[j].status == JobRunning
    ensures var t := RunJobStep(s, j, env);
      NoneComesBack(s.jobs, t.jobs) && (!Handle(s, s.jobs[j], env).1 ==> !Unfinished(t.jobs[j]))
  {
    var (u, err) := Handle(s, s.jobs[j], env);
    HandleJobsGrow(s, s.jobs[j], env);
    HandleKeepsJob(s, j, env);
    HandleOnlyCancels(s, s.jobs[j], env);
    Concluded(u, j, err, env.now);
  }

  lemma HandleOnlyCancels(s: State, job: Job, env: Env)
    ensures var u := Handle(s, job, env).0; NoneComesBack(s.jobs, u.jobs)
  {
    match job.kind
    case SendAd =>
    case SendReply => ReplyAdds(s, job, env);
    case DeletePost =>
    case Reminder =>
  }

  /** Of a row that has posted nothing there is no reply job. */
  lemma NoReplyYet(s: State, i: nat, k: nat)
    requires Life(s) && i < |s.reservations| && s.reservations[i].posted == []
    requires k < |s.jobs| && s.jobs[k].kind == SendReply
    ensures RowId(s.jobs[k]) != s.reservations[i].id
  {
    assert JobOk(s.reservations, s.jobs[k]);
    var id, n :| ReplyPayload(s.jobs[k].payload, id, n) && SchedulerLife.Started(s.reservations, id);
    ReplyRowId(s.jobs[k], id, n);
  }

  lemma SendKeepsOneReply(s: State, j: nat, env: Env)
    requires Life(s) && OneReply(s.jobs) && j < |s.jobs| && s.jobs[j].status == JobRunning && s.jobs[j].kind == SendAd
    ensures OneReply(RunJobStep(s, j, env).jobs)
  {
    var job, t := s.jobs[j], RunJobStep(s, j, env);
    assert JobOk(s.reservations, job);
    var i0 := IndexOf(s.reservations, job.payload);
    RunJobComesBack(s, j, env);
    var (u, err) := Handle(s, job, env);
    HandleKeepsJob(s, j, env);
    Concluded(u, j, err, env.now);
    if PostsAd(env) {
      AdPlaces(s, job, env, i0);
      JobContinues(s, j, env);
      FirstReplyIsOne(s, t, j, i0, env);
    } else {
      assert u == s;
      OneReplyStays(s.jobs, t.jobs);
    }
  }

  lemma FirstReplyIsOne(s: State, t: State, j: nat, i0: nat, env: Env)
    requires Life(s) && OneReply(s.jobs) && j < |s.jobs| && s.jobs[j].kind == SendAd && PostsAd(env)
    requires i0 < |s.reservations| && s.reservations[i0].posted == [] && s.reservations[i0].id == s.jobs[j].payload
    requires NoneComesBack(s.jobs, t.jobs) && AllContinue(t.jobs, |s.jobs|, s.jobs[j], env)
    requires |t.jobs| == |s.jobs| + |AdJobs(s.jobs[j], env.ad.value, env.campaign.value, env.now)|
    requires forall k | |s.jobs| <= k < |t.jobs| ::
      t.jobs[k] == AdJobs(s.jobs[j], env.ad.value, env.campaign.value, env.now)[k - |s.jobs|]
    ensures OneReply(t.jobs)
  {
    if env.ad.value.replies != [] {
      forall k | 0 <= k < |s.jobs| && Unfinished(t.jobs[k])
        ensures RowId(s.jobs[k]) != RowId(t.jobs[|t.jobs| - 1])
      {
        NoReplyYet(s, i0, k);
      }
      OneReplyMore(s.jobs, t.jobs);
    } else {
      OneReplyStays(s.jobs, t.jobs);
    }
  }

  lemma ReplyKeepsOneReply(s: State, j: nat, env: Env)
    requires Life(s) && OneReply(s.jobs)
    requires j < |s.jobs| && s.jobs[j].status == JobRunning && s.jobs[j].kind == SendReply
    ensures OneReply(RunJobStep(s, j, env).jobs)
  {
    var job, t := s.jobs[j], RunJobStep(s, j, env);
    assert JobOk(s.reservations, job);
    RunJobComesBack(s, j, env);
    var (u, err) := Handle(s, job, env);
    HandleKeepsJob(s, j, env);
    Concluded(u, j, err, env.now);
    if Replies(s, job, env) && env.copied.Some? {
      ReplyPlaces(s, job, env);
      JobContinues(s, j, env);
      forall k | 0 <= k < |s.jobs| && Unfinished(t.jobs[k])
        ensures RowId(s.jobs[k]) != RowId(t.jobs[|t.jobs| - 1])
      {
        assert k != j && Unfinished(s.jobs[k]) && Unfinished(s.jobs[j]);
      }
      OneReplyMore(s.jobs, t.jobs);
    } else {
      ReplyStops(s, job, env);
      OneReplyStays(s.jobs, t.jobs);
    }
  }

  lemma ComesBackChain(a: seq<Job>, b: seq<Job>, c: seq<Job>)
    requires NoneComesBack(a, b) && NoneComesBack(b, c)
    ensures NoneComesBack(a, c)
  {}

  lemma {:induction false} ChannelsBringNone(
    s: State, cm: Campaign, ad: Ad, channels: seq<string>, start: Instant, now: Instant, lead: int, newId: nat -> Uuid)
    ensures NoneComesBack(s.jobs, PlanChannels(s, cm, ad, channels, start, now, lead, newId).jobs)
    decreases |channels|
  {
    if channels != [] {
      var most, last := channels[..|channels| - 1], channels[|channels| - 1];
      var u := PlanChannels(s, cm, ad, most, start, now, lead, newId);
      ChannelsBringNone(s, cm, ad, most, start, now, lead, newId);
      ComesBackChain(s.jobs, u.jobs, PlanChannel(u, cm, ad, last, start, now, lead, newId).jobs);
    }
  }

  lemma CampaignBringsNone(s: State, cm: Campaign, now: Instant, lead: int, newId: nat -> Uuid)
    ensures NoneComesBack(s.jobs, PlanCampaign(s, cm, now, lead, newId).jobs)
  {
    if InDailyWindow(now, cm.window) && cm.ads != [] {
      ChannelsBringNone(s, cm, CurrentAd(cm, now), cm.channels, CurrentWindowStart(now, cm.window), now, lead, newId);
    }
  }

  lemma {:induction false} PassBringsNone(
    s: State, campaigns: seq<Campaign>, now: Instant, lead: int, newId: nat -> Uuid)
    ensures NoneComesBack(s.jobs, PlanCampaigns(s, campaigns, now, lead, newId).jobs)
    decreases |campaigns|
  {
    if campaigns != [] {
      var most, last := campaigns[..|campaigns| - 1], campaigns[|campaigns| - 1];
      var u := PlanCampaigns(s, most, now, lead, newId);
      PassBringsNone(s, most, now, lead, newId);
      CampaignBringsNone(u, last, now, lead, newId);
      ComesBackChain(s.jobs, u.jobs, PlanCampaign(u, last, now, lead, newId).jobs);
    }
  }

  lemma NewJobsAreFirst(s: State, t: State, now: Instant, lead: int)
    requires Adds(s, t, now, lead)
    ensures forall k | |s.jobs| <= k < |t.jobs| :: t.jobs[k].kind != SendReply
  {
    forall k | |s.jobs| <= k < |t.jobs|
      ensures t.jobs[k].kind != SendReply
    {
      var i := |s.reservations| + RowOf(|s.jobs|, k, lead);
      assert Served(|s.jobs|, t.reservations[i], t.jobs, i - |s.reservations|, now, lead);
    }
  }

  lemma PassKeepsOneReply(s: State, e: Event)
    requires e.Plan? && OneReply(s.jobs)
    ensures OneReply(Step(s, e).jobs)
  {
    PassServesRows(s, e.campaigns, e.now, e.reminderLead, e.newId);
    PassBringsNone(s, e.campaigns, e.now, e.reminderLead, e.newId);
    NewJobsAreFirst(s, Step(s, e), e.now, e.reminderLead);
    OneReplyStays(s.jobs, Step(s, e).jobs);
  }

  lemma JobKeepsOneReply(s: State, j: nat, env: Env)
    requires Life(s) && OneReply(s.jobs)
    ensures OneReply(RunJobStep(s, j, env).jobs)
  {
    if j < |s.jobs| && s.jobs[j].status == JobRunning {
      match s.jobs[j].kind
      case SendAd => SendKeepsOneReply(s, j, env);
      case SendReply => ReplyKeepsOneReply(s, j, env);
      case DeletePost =>
        RunJobComesBack(s, j, env);
        OneReplyStays(s.jobs, RunJobStep(s, j, env).jobs);
      case Reminder =>
        RunJobComesBack(s, j, env);
        OneReplyStays(s.jobs, RunJobStep(s, j, env).jobs);
    }
  }

  lemma StepKeepsOneReply(s: State, e: Event)
    requires Life(s) && OneReply(s.jobs)
    ensures OneReply(Step(s, e).jobs)
  {
    match e
    case Plan(_, _, _, _) => PassKeepsOneReply(s, e);
    case Fetch(_) =>
    case StartNext => OneReplyStays(s.jobs, StartJob(s).jobs);
    case RunJob(j, env) => JobKeepsOneReply(s, j, env);
  }

  /** In every reachable state no row has two reply jobs that may still run. */
  lemma {:induction false} RunHasOneReply(events: seq<Event>)
    ensures OneReply(RunFrom(EMPTY, events).jobs)
    decreases |events|
  {
    if events != [] {
      RunHasOneReply(events[..|events| - 1]);
      RunKeepsLife(EMPTY, events[..|events| - 1]);
      StepKeepsOneReply(RunFrom(EMPTY, events[..|events| - 1]), events[|events| - 1]);
    }
  }

  // ------------------------------------------------------------------ when it is lost

  lemma DroppedIsLost(s: State, j: nat, env: Env, i: nat, ads: string -> Ad)
    requires Going(s, ads) && OneReply(s.jobs) && Catalogue(ads) && LooksUp(s, RunJob(j, env), ads)
    requires i < |s.reservations| && HasCycle(s.reservations[i], ads) && Drops(s, j, env, i, ads)
    ensures var t := RunJobStep(s, j, env);
      && i < |t.reservations| && KeepsPlace(s.reservations[i], t.reservations[i])
      && !Carried(t.jobs, t.reservations[i], Length(t.reservations[i], ads))
  {
    var job, r, n := s.jobs[j], s.reservations[i], Length(s.reservations[i], ads);
    var (u, err) := Handle(s, job, env);
    var t := RunJobStep(s, j, env);
    CarrierOfRow(job, r, n);
    DroppedStops(s, j, env, i, ads);
    ReplyStops(s, job, env);
    Concluded(u, j, err, env.now);
    FailedReplySparesRow(s, u, j, err, env.now, i);
    NoOtherCarries(s.jobs, t.jobs, j, r, t.reservations[i], n);
  }

  lemma NoOtherCarries(jobs: seq<Job>, jobs': seq<Job>, j: nat, r: Reservation, q: Reservation, n: nat)
    requires OneReply(jobs) && j < |jobs| == |jobs'| && KeepsPlace(r, q) && r.replyIndex >= -1
    requires jobs[j].kind == SendReply && Carries(jobs[j], r, n) && jobs'[j].status in {JobDone, JobFailed}
    requires forall k | 0 <= k < |jobs| && k != j :: jobs'[k] == jobs[k]
    ensures !Carried(jobs', q, n)
  {
    CarrierOfRow(jobs[j], r, n);
    forall k | 0 <= k < |jobs'|
      ensures !Carries(jobs'[k], q, n)
    {
      if k != j && Carries(jobs'[k], q, n) {
        CarrierOfRow(jobs[k], r, n);
        assert Unfinished(jobs[k]) && Unfinished(jobs[j]);
      }
    }
  }

  /** A reply's payload is no reservation's ID: its failure fails no row. */
  lemma FailedReplySparesRow(s: State, u: State, j: nat, err: bool, now: Instant, i: nat)
    requires Life(s) && j < |s.jobs| && s.jobs[j].kind == SendReply && u.jobs == s.jobs
    requires AllKeepPlace(s.reservations, u.reservations) && i < |s.reservations|
    ensures KeepsPlace(s.reservations[i], Conclude(u, j, err, now).reservations[i])
  {
    assert JobOk(s.reservations, s.jobs[j]) && JobOk(s.reservations, s.jobs[j]);
    var id, n :| ReplyPayload(s.jobs[j].payload, id, n) && SchedulerLife.Started(s.reservations, id);
    assert |s.jobs[j].payload| > 36;
    assert forall m | 0 <= m < |u.reservations| :: |u.reservations[m].id| == 36;
  }

  lemma DroppedStops(s: State, j: nat, env: Env, i: nat, ads: string -> Ad)
    requires Going(s, ads) && Catalogue(ads) && LooksUp(s, RunJob(j, env), ads)
    requires i < |s.reservations| && HasCycle(s.reservations[i], ads) && Drops(s, j, env, i, ads)
    ensures !(Replies(s, s.jobs[j], env) && env.copied.Some?)
    ensures s.jobs[j].attempts > MAX_ATTEMPTS || !Handle(s, s.jobs[j], env).1
  {
    if env.ad.Some? {
      CarrierStops(s, j, env, i, ads);
    } else {
      NoAdNoError(s, s.jobs[j], env);
    }
  }

  lemma NoAdNoError(s: State, job: Job, env: Env)
    requires job.kind == SendReply && env.ad.None?
    ensures !Handle(s, job, env).1
  {}

  /** In a state of such a run a posted row with replies is carried after a job has run, if it
      is still posted, if and only if the job was not its carrier that did not find its ad
      or failed for the fourth time. */
  lemma CarriedNextIff(s: State, j: nat, env: Env, i: nat, ads: string -> Ad)
    requires Going(s, ads) && OneReply(s.jobs) && Catalogue(ads) && LooksUp(s, RunJob(j, env), ads)
    requires i < |s.reservations| && HasCycle(s.reservations[i], ads)
    ensures var t := RunJobStep(s, j, env);
      && i < |t.reservations|
      && (t.reservations[i].status == ResSent ==> (RowCarried(t, i, ads) <==> !Drops(s, j, env, i, ads)))
  {
    assert RowCarried(s, i, ads);
    if Drops(s, j, env, i, ads) {
      DroppedIsLost(s, j, env, i, ads);
    } else {
      JobCarries(s, j, env, i, ads);
    }
  }

  /** One such tick in a cycle left alone: the ad of the reply is not found, the job counts
      as done, and the row keeps showing what it showed with nothing due. */
  lemma LostAdStrandsTheCycle(
    s: State, t: State, i: nat, id: Uuid, ad: Ad, main: int, replies: nat -> int, x: nat, env: Env, horizon: Instant)
    requires Life(s) && Ready(s, i, id, ad, main, replies, x, env.now, horizon) && x < |ad.replies|
    requires env.ad.None? && OneTick(s, t, |s.jobs| - 1, env)
    ensures t.reservations == s.reservations && |t.jobs| == |s.jobs| && t.jobs[|s.jobs| - 1].status == JobDone
    ensures forall k | 0 <= k < |t.jobs| && t.jobs[k].status == JobPending :: t.jobs[k].runAt > horizon
  {
    TurnRuns(s, env, horizon);
    NoAdNothing(TakenUp(s), |s.jobs| - 1, env);
  }

  lemma NoAdNothing(s: State, j: nat, env: Env)
    requires j < |s.jobs| && s.jobs[j].status == JobRunning && s.jobs[j].kind == SendReply && env.ad.None?
    ensures RunJobStep(s, j, env) == s.(jobs := s.jobs[j := s.jobs[j].(status := JobDone)])
  {}
}
