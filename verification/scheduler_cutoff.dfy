/** What ending a cycle and cutting a campaign off clear, exactly, and what they
    leave in the channel. */
module SchedulerCutOff {
  import opened Text
  import opened Schedule
  import opened Scheduler
  import opened SchedulerLife

  /** The job is for exactly this reservation. */
  ghost predicate JobFor(job: Job, id: string) {
    if job.kind == SendReply then exists n :: ReplyPayload(job.payload, id, n) else job.payload == id
  }

  /** The payload test never takes in another reservation's job. */
  lemma BelongsExactly(rs: seq<Reservation>, job: Job, id: Uuid)
    requires PayloadOk(rs, job)
    ensures BelongsTo(job.payload, id) <==> JobFor(job, id)
  {
    var p := job.payload;
    if job.kind == SendReply {
      var rid, n :| ReplyPayload(p, rid, n) && Started(rs, rid);
      assert p[|rid|] == '|' && p[..|rid|] == rid;
      assert |p| > 36;
      if id + "|" <= p {
        assert rid == p[..36] == (id + "|")[..36] == id;
      }
      forall m | ReplyPayload(p, id, m)
        ensures id + "|" <= p
      {}
    }
  }

  /** Ending a cycle clears its row and cancels its pending jobs, all of them and no
      others. */
  lemma EndCycleEndsExactlyIt(s: State, i: nat, found: bool)
    requires Life(s) && i < |s.reservations|
    ensures var r, t := s.reservations[i], EndCycle(s, s.reservations[i].id, found);
      && t.reservations == s.reservations[i := Expired(r, found)]
      && t.reservations[i].status == ResExpired && t.reservations[i].live == []
      && (found ==> t.reservations[i].shown == Abandoned(r))
      && |t.jobs| == |s.jobs|
      && forall k | 0 <= k < |s.jobs| ::
           t.jobs[k] == if s.jobs[k].status == JobPending && JobFor(s.jobs[k], r.id)
                        then s.jobs[k].(status := JobCancelled) else s.jobs[k]
  {
    var id := s.reservations[i].id;
    assert IndexOf(s.reservations, id) == i;
    forall k | 0 <= k < |s.jobs|
      ensures BelongsTo(s.jobs[k].payload, id) <==> JobFor(s.jobs[k], id)
    {
      assert JobOk(s.reservations, s.jobs[k]);
      BelongsExactly(s.reservations, s.jobs[k], id);
    }
  }

  predicate Of(r: Reservation, campaign: string) {
    r.campaign == campaign
  }

  /** Nothing of the campaign is in any channel. */
  predicate Silent(rs: seq<Reservation>, campaign: string) {
    forall i | 0 <= i < |rs| && Of(rs[i], campaign) :: rs[i].shown == {}
  }

  /** The cut-off will not delete everything of this row: there is a copy the table has
      lost sight of, or a listed one on a row that is not Sent or whose channel is not
      found. */
  predicate Remains(r: Reservation, campaign: string, found: set<string>) {
    Of(r, campaign) &&
    (Abandoned(r) != {} || (r.shown != {} && (r.status != ResSent || r.channel !in found)))
  }

  lemma CutOffRowShows(r: Reservation, campaign: string, found: set<string>)
    requires Of(r, campaign)
    ensures var q := CutOffRow(r, campaign, found);
      && Of(q, campaign) && q.status in {ResExpired, ResCancelled, ResFailed}
      && (q.shown == {} <==> !Remains(r, campaign, found))
  {}

  /** Cutting off leaves the campaign no Sent or open reservation and no pending job,
      and every other campaign as it was. Its channels fall silent exactly when no row
      of it has an abandoned copy, none that is not Sent shows a message, and the
      channels of those that do are found. */
  lemma CutOffClearsIff(s: State, campaign: string, found: set<string>)
    ensures var t := CutOffCampaign(s, campaign, found);
      && |t.reservations| == |s.reservations| && |t.jobs| == |s.jobs|
      && (forall i | 0 <= i < |s.reservations| ::
            if Of(s.reservations[i], campaign)
            then t.reservations[i].status in {ResExpired, ResCancelled, ResFailed}
            else t.reservations[i] == s.reservations[i])
      && (forall k | 0 <= k < |s.jobs| ::
            if s.jobs[k].campaign == campaign then t.jobs[k].status != JobPending else t.jobs[k] == s.jobs[k])
      && (Silent(t.reservations, campaign) <==>
            forall i | 0 <= i < |s.reservations| :: !Remains(s.reservations[i], campaign, found))
  {
    var rs, qs := s.reservations, CutOffCampaign(s, campaign, found).reservations;
    forall i | 0 <= i < |rs| && Of(rs[i], campaign)
      ensures Of(qs[i], campaign) && qs[i].status in {ResExpired, ResCancelled, ResFailed}
      ensures qs[i].shown == {} <==> !Remains(rs[i], campaign, found)
    {
      CutOffRowShows(rs[i], campaign, found);
    }
    if forall i | 0 <= i < |rs| :: !Remains(rs[i], campaign, found) {
      assert forall i | 0 <= i < |qs| && Of(qs[i], campaign) :: Of(rs[i], campaign);
    }
  }

  // ----------------------------------------------- a message left in the channel

  const NINE: Instant := 32_400_000_000_000
  const HOURLY: Campaign := Campaign("c", Window(9, 0, 18, 0), 60, 0, 0, None, [Ad("a", [])], ["ch"], {"ch"})
  const ID: Uuid := "00000000-0000-0000-0000-000000000000"

  function FirstId(k: nat): Uuid {
    ID
  }

  function NoRepost(k: nat): Option<Repost> {
    None
  }

  /** At this time everything is found, message 7 is the copy, and reminders fail. */
  function ReminderDown(now: Instant): Env {
    Env(now, Some(Ad("a", [])), true, Some(HOURLY), Some(7), NoRepost, true)
  }

  function Posted(status: ReservationStatus): Reservation {
    Reservation(ID, "c", "a", "ch", status, NINE, [7], [7], -1, None, {7})
  }

  function Remind(status: JobStatus, runAt: Instant, attempts: int): Job {
    Job(Reminder, status, "c", "a", "ch", runAt, attempts, ID)
  }

  function Sent(status: JobStatus, attempts: int): Job {
    Job(SendAd, status, "c", "a", "ch", NINE, attempts, ID)
  }

  /** The ad is posted; its reminder has been tried n times and waits. */
  function Waiting(runAt: Instant, n: int): State {
    State([Posted(ResSent)], [Sent(JobDone, 1), Remind(JobPending, runAt, n)], [])
  }

  function Planned(): State {
    State([NewReservation(ID, "c", "a", "ch", NINE)], [Sent(JobPending, 0), Remind(JobPending, NINE, 0)], [])
  }

  function Morning(): Event {
    Plan([HOURLY], NINE, 1, FirstId)
  }

  lemma MorningPlans()
    ensures Step(EMPTY, Morning()) == Planned()
  {}

  function BothRunning(): State {
    State(Planned().reservations, [Sent(JobRunning, 1), Remind(JobRunning, NINE, 1)], [])
  }

  lemma BothStart()
    ensures Step(Step(Step(Planned(), Fetch(NINE)), StartNext), StartNext) == BothRunning()
  {
    var js := Planned().jobs;
    assert js[..1] == [js[0]] && js[..1][..0] == [];
    assert DueJobs(js[..1], NINE) == [0];
    assert DueJobs(js, NINE) == [0, 1];
    var s3 := Step(Step(Planned(), Fetch(NINE)), StartNext);
    assert s3 == State(Planned().reservations, [Sent(JobRunning, 1), Remind(JobPending, NINE, 0)], [1]);
  }

  lemma NothingReposted(rs: seq<Reservation>, channel: string, m: int)
    ensures AfterPost(rs, channel, m, NoRepost) == rs
  {}

  /** An ad goes out for row i, with no replies and no safety net. */
  lemma PostPlain(s: State, job: Job, ad: Ad, cm: Campaign, i: nat, m: int, env: Env)
    requires env.ad == Some(ad) && env.campaign == Some(cm) && env.channelFound && env.copied == Some(m)
    requires ad.replies == [] && cm.deleteAfterMinutes == 0
    requires job.kind == SendAd && job.payload != ""
    requires i < |s.reservations| && IndexOf(s.reservations, job.payload) == i
    ensures Handle(s, job, env) ==
      (s.(reservations :=
            AfterPost(s.reservations[i := MainPosted(s.reservations[i], m)], job.channel, m, env.reposted)), false)
  {
    assert AdJobs(job, ad, cm, env.now) == [];
    assert s.jobs + [] == s.jobs;
  }

  lemma FirstPost()
    ensures MainPosted(NewReservation(ID, "c", "a", "ch", NINE), 7) == Posted(ResSent)
  {
    assert [] + [7] == [7];
  }

  lemma FoundAlone(r: Reservation)
    ensures IndexOf([r], r.id) == 0
  {}

  lemma FirstDone(rs: seq<Reservation>, send: Job, other: Job, now: Instant)
    ensures Conclude(State(rs, [send, other], []), 0, false, now) == State(rs, [send.(status := JobDone), other], [])
  {}

  /** The same for a lone reservation, nothing being sent again. */
  lemma PostAlone(r: Reservation, send: Job, other: Job, ad: Ad, cm: Campaign, m: int, env: Env)
    requires env.ad == Some(ad) && env.campaign == Some(cm) && env.channelFound && env.copied == Some(m)
    requires ad.replies == [] && cm.deleteAfterMinutes == 0 && env.reposted == NoRepost
    requires send.kind == SendAd && send.payload == r.id != ""
    ensures Handle(State([r], [send, other], []), send, env) == (State([MainPosted(r, m)], [send, other], []), false)
  {
    FoundAlone(r);
    PostPlain(State([r], [send, other], []), send, ad, cm, 0, m, env);
    assert [r][0 := MainPosted(r, m)] == [MainPosted(r, m)];
    NothingReposted([MainPosted(r, m)], send.channel, m);
  }

  lemma PostGoesOut()
    ensures RunJobStep(BothRunning(), 0, ReminderDown(NINE)) ==
      State([Posted(ResSent)], [Sent(JobDone, 1), Remind(JobRunning, NINE, 1)], [])
  {
    FirstPost();
    PostAlone(NewReservation(ID, "c", "a", "ch", NINE), Sent(JobRunning, 1), Remind(JobRunning, NINE, 1),
              HOURLY.ads[0], HOURLY, 7, ReminderDown(NINE));
    FirstDone([Posted(ResSent)], Sent(JobRunning, 1), Remind(JobRunning, NINE, 1), NINE);
  }

  /** A failing reminder waits for its next try. */
  lemma ReminderFails(rs: seq<Reservation>, send: Job, remind: Job, env: Env)
    requires remind.kind == Reminder && remind.status == JobRunning && remind.attempts <= MAX_ATTEMPTS
    requires env.reminderFails
    ensures RunJobStep(State(rs, [send, remind], []), 1, env) ==
      State(rs, [send, remind.(status := JobPending, runAt := env.now + Minutes(remind.attempts * 5))], [])
  {}

  lemma FirstTick()
    ensures
      var s4 := Step(Step(Step(Planned(), Fetch(NINE)), StartNext), StartNext);
      Step(Step(s4, RunJob(0, ReminderDown(NINE))), RunJob(1, ReminderDown(NINE))) == Waiting(NINE + Minutes(5), 1)
  {
    BothStart();
    PostGoesOut();
    ReminderFails([Posted(ResSent)], Sent(JobDone, 1), Remind(JobRunning, NINE, 1), ReminderDown(NINE));
  }

  function Round(at: Instant): seq<Event> {
    [Fetch(at), StartNext, RunJob(1, ReminderDown(at))]
  }

  lemma ThreeSteps(s: State, a: Event, b: Event, c: Event)
    ensures RunFrom(s, [a, b, c]) == Step(Step(Step(s, a), b), c)
  {
    OneStep(s, [], a);
    OneStep(s, [a], b);
    OneStep(s, [a, b], c);
    assert [] + [a] == [a] && [a] + [b] == [a, b] && [a, b] + [c] == [a, b, c];
  }

  function Trying(at: Instant, n: int): State {
    State([Posted(ResSent)], [Sent(JobDone, 1), Remind(JobRunning, at, n)], [])
  }

  lemma TryStarts(at: Instant, n: int)
    ensures Step(Step(Waiting(at, n), Fetch(at)), StartNext) == Trying(at, n + 1)
  {
    var js := Waiting(at, n).jobs;
    assert js[..1] == [js[0]] && js[..1][..0] == [];
    assert DueJobs(js[..1], at) == [];
    assert DueJobs(js, at) == [1];
  }

  /** After the fourth try the job gives up, and the reservation is failed with it. */
  lemma LastTryFails(at: Instant)
    ensures RunJobStep(Trying(at, 4), 1, ReminderDown(at)) ==
      State([Posted(ResFailed)], [Sent(JobDone, 1), Remind(JobFailed, at, 4)], [])
  {
    FoundAlone(Posted(ResSent));
  }

  lemma RoundRuns(at: Instant, n: int)
    ensures RunFrom(Waiting(at, n), Round(at)) == RunJobStep(Trying(at, n + 1), 1, ReminderDown(at))
  {
    ThreeSteps(Waiting(at, n), Fetch(at), StartNext, RunJob(1, ReminderDown(at)));
    TryStarts(at, n);
  }

  /** One more failing try of the reminder; the fourth one fails the reservation. */
  lemma OneMoreTry(at: Instant, n: int)
    requires 1 <= n <= 3
    ensures RunFrom(Waiting(at, n), Round(at)) ==
      if n < 3 then Waiting(at + Minutes((n + 1) * 5), n + 1)
      else State([Posted(ResFailed)], [Sent(JobDone, 1), Remind(JobFailed, at, 4)], [])
  {
    RoundRuns(at, n);
    if n < 3 {
      ReminderFails([Posted(ResSent)], Sent(JobDone, 1), Remind(JobRunning, at, n + 1), ReminderDown(at));
    } else {
      LastTryFails(at);
    }
  }

  function Tries(): seq<Event> {
    var t1 := NINE + Minutes(5);
    var t2 := t1 + Minutes(10);
    Round(t1) + Round(t2) + Round(t2 + Minutes(15))
  }

  function FirstHalf(): seq<Event> {
    [Morning(), Fetch(NINE), StartNext]
  }

  function SecondHalf(): seq<Event> {
    [StartNext, RunJob(0, ReminderDown(NINE)), RunJob(1, ReminderDown(NINE))]
  }

  /** One day of an hourly campaign whose reminders cannot be delivered, up to the
      planner's first pass after the window. */
  function Day(): seq<Event> {
    FirstHalf() + SecondHalf() + Tries() + [Plan([HOURLY], NINE + Minutes(660), 1, FirstId)]
  }

  lemma TriesFail()
    ensures var s := RunFrom(Waiting(NINE + Minutes(5), 1), Tries());
      && s.reservations == [Posted(ResFailed)]
      && |s.jobs| == 2 && s.jobs[1].attempts == 4 && s.jobs[1].status == JobFailed
  {
    var t1 := NINE + Minutes(5);
    var t2 := t1 + Minutes(10);
    var s := Waiting(t1, 1);
    OneMoreTry(t1, 1);
    OneMoreTry(t2, 2);
    OneMoreTry(t2 + Minutes(15), 3);
    RunSplits(s, Round(t1), Round(t2));
    RunSplits(s, Round(t1) + Round(t2), Round(t2 + Minutes(15)));
  }

  lemma TickRuns()
    ensures RunFrom(EMPTY, FirstHalf() + SecondHalf()) == Waiting(NINE + Minutes(5), 1)
  {
    MorningPlans();
    FirstTick();
    ThreeSteps(EMPTY, Morning(), Fetch(NINE), StartNext);
    RunSplits(EMPTY, FirstHalf(), SecondHalf());
    ThreeSteps(RunFrom(EMPTY, FirstHalf()), StartNext, RunJob(0, ReminderDown(NINE)), RunJob(1, ReminderDown(NINE)));
  }

  /** The limit of three attempts lets a job start four times. */
  lemma FourthStart()
    ensures var s := RunFrom(EMPTY, FirstHalf() + SecondHalf() + Tries());
      |s.jobs| == 2 && s.jobs[1].attempts == MAX_ATTEMPTS + 1 && s.jobs[1].status == JobFailed
  {
    TickRuns();
    TriesFail();
    RunSplits(EMPTY, FirstHalf() + SecondHalf(), Tries());
  }

  lemma EveningCutsOff(before: State)
    ensures var end := NINE + Minutes(660);
      && !InDailyWindow(end, HOURLY.window)
      && Step(before, Plan([HOURLY], end, 1, FirstId)) == CutOffCampaign(before, "c", {"ch"})
  {
    var end := NINE + Minutes(660);
    assert MinuteOfDay(end) == 1200;
    assert !InDailyWindow(end, HOURLY.window);
    assert [HOURLY][..0] == [];
    assert PlanCampaigns(before, [], end, 1, FirstId) == before;
    assert PlanCampaign(before, HOURLY, NINE + Minutes(660), 1, FirstId) == CutOffCampaign(before, "c", {"ch"});
  }

  /** The cut-off does not clear every cycle, against what is said of it: a reminder
      that keeps failing makes a posted reservation Failed, and the pass that cuts the
      campaign off at the day's end then leaves its message in the channel. */
  lemma FailedReminderStrandsThePost()
    ensures var s := RunFrom(EMPTY, Day());
      && !InDailyWindow(NINE + Minutes(660), HOURLY.window)
      && |s.reservations| == 1 && s.reservations[0].campaign == HOURLY.id
      && s.reservations[0].status == ResFailed && s.reservations[0].shown == {7}
  {
    TickRuns();
    TriesFail();
    var tick := FirstHalf() + SecondHalf();
    var before := RunFrom(EMPTY, tick + Tries());
    RunSplits(EMPTY, tick, Tries());
    OneStep(EMPTY, tick + Tries(), Plan([HOURLY], NINE + Minutes(660), 1, FirstId));
    EveningCutsOff(before);
    assert before.reservations == [Posted(ResFailed)];
    assert CutOffRow(before.reservations[0], "c", {"ch"}) == Posted(ResFailed);
  }
}
