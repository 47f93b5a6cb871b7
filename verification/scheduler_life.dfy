/** The life of reservations over every run of the scheduler: what each row may show
    in its channel, that its history only grows, that an ended cycle stays ended. */
module SchedulerLife {
  import opened Text
  import opened Schedule
  import opened Scheduler

  // ---------------------------------------------------------------------- one row

  /** At most two live messages, all in the posted history; Sent rows show something,
      expired ones nothing any more, open and cancelled ones never did. */
  predicate RowOk(r: Reservation) {
    && |r.live| <= 2
    && (forall k | 0 <= k < |r.live| :: r.live[k] in r.posted)
    && (r.status == ResSent ==> r.live != [])
    && (r.status == ResExpired ==> r.live == [] && r.posted != [])
    && (r.Open() || r.status == ResCancelled ==> r.posted == [])
    && r.shown <= Ids(r.posted)
  }

  /** Messages of the row that are in the channel and that the table no longer knows. */
  function Abandoned(r: Reservation): set<int> {
    r.shown - Ids(r.live)
  }

  /** The cycle has run, and the table lists nothing of it as live. */
  predicate Ended(r: Reservation) {
    r.posted != [] && r.live == []
  }

  /** What any stretch of a run may make of a row: the history grows; what was
      abandoned stays, unless its ID is posted again; once ended nothing changes in
      the channel. */
  predicate Evolves(r: Reservation, q: Reservation) {
    && q.id == r.id && q.campaign == r.campaign && q.ad == r.ad && q.channel == r.channel
    && q.scheduledAt == r.scheduledAt
    && r.posted <= q.posted
    && (q.Open() ==> r.Open())
    && Abandoned(r) - Ids(q.posted[|r.posted|..]) <= Abandoned(q)
    && (Ended(r) ==> q.live == [] && q.posted == r.posted && q.shown == r.shown)
  }

  lemma EvolvesChain(a: Reservation, b: Reservation, c: Reservation)
    requires Evolves(a, b) && Evolves(b, c)
    ensures Evolves(a, c)
  {
    forall m | m in Abandoned(a) && m !in c.posted[|a.posted|..]
      ensures m in Abandoned(c)
    {
      assert c.posted[..|b.posted|] == b.posted;
      assert b.posted[|a.posted|..] == c.posted[|a.posted|..][..|b.posted| - |a.posted|];
      assert c.posted[|b.posted|..] == c.posted[|a.posted|..][|b.posted| - |a.posted|..];
    }
  }

  predicate RowsOk(rs: seq<Reservation>) {
    && (forall i | 0 <= i < |rs| :: RowOk(rs[i]))
    && (forall i, k | 0 <= i < k < |rs| :: rs[i].id != rs[k].id)
  }

  predicate Grows(rs: seq<Reservation>, qs: seq<Reservation>) {
    |rs| <= |qs| && forall i | 0 <= i < |rs| :: Evolves(rs[i], qs[i])
  }

  /** Rows that have posted nothing still have not, except the one with this ID. */
  predicate Quiet(rs: seq<Reservation>, qs: seq<Reservation>, id: string) {
    && Grows(rs, qs)
    && forall i | 0 <= i < |rs| :: rs[i].id != id && rs[i].posted == [] ==> qs[i].posted == []
  }

  lemma GrowsChain(a: seq<Reservation>, b: seq<Reservation>, c: seq<Reservation>)
    requires Grows(a, b) && Grows(b, c)
    ensures Grows(a, c)
  {
    forall i | 0 <= i < |a|
      ensures Evolves(a[i], c[i])
    {
      EvolvesChain(a[i], b[i], c[i]);
    }
  }

  lemma QuietChain(a: seq<Reservation>, b: seq<Reservation>, c: seq<Reservation>, id: string)
    requires Quiet(a, b, id) && Quiet(b, c, id)
    ensures Quiet(a, c, id)
  {
    GrowsChain(a, b, c);
    forall i | 0 <= i < |a|
      ensures Evolves(a[i], b[i])
    {}
  }

  lemma IndexStable(rs: seq<Reservation>, qs: seq<Reservation>, id: string)
    requires Grows(rs, qs) && IndexOf(rs, id) < |rs|
    ensures IndexOf(qs, id) == IndexOf(rs, id)
  {}

  lemma UpdateRow(rs: seq<Reservation>, i: nat, q: Reservation, id: string)
    requires RowsOk(rs) && i < |rs| && RowOk(q) && Evolves(rs[i], q)
    requires rs[i].id == id || (rs[i].posted == [] ==> q.posted == [])
    ensures RowsOk(rs[i := q]) && Quiet(rs, rs[i := q], id)
  {}

  // ------------------------------------------------------------------- whole tables

  lemma LiveWasPosted(r: Reservation)
    requires RowOk(r) && r.live != []
    ensures r.posted != []
  {
    assert r.live[0] in r.posted;
  }

  lemma AfterPostKeeps(rs: seq<Reservation>, channel: string, m: int, again: nat -> Option<Repost>, id: string)
    requires RowsOk(rs)
    ensures var qs := AfterPost(rs, channel, m, again); RowsOk(qs) && Quiet(rs, qs, id)
  {
    var qs := AfterPost(rs, channel, m, again);
    forall i: nat | i < |rs|
      ensures RowOk(qs[i]) && Evolves(rs[i], qs[i]) && (rs[i].posted == [] ==> qs[i].posted == [])
    {
      RepostKeeps(rs[i], channel, m, again(i));
    }
  }

  lemma RepostKeeps(r: Reservation, channel: string, m: int, again: Option<Repost>)
    requires RowOk(r)
    ensures var q := AfterPostRow(r, channel, m, again);
      RowOk(q) && Evolves(r, q) && (r.posted == [] ==> q.posted == [])
  {
    var q := AfterPostRow(r, channel, m, again);
    if q != r {
      LiveWasPosted(r);
      assert q.posted[|r.posted|..] == [again.value.message];
    }
  }

  lemma CutOffRowKeeps(r: Reservation, campaign: string, found: set<string>)
    requires RowOk(r)
    ensures var q := CutOffRow(r, campaign, found); RowOk(q) && Evolves(r, q) && q.posted == r.posted
  {
    if r.status == ResSent {
      LiveWasPosted(r);
    }
  }

  lemma CutOffKeeps(rs: seq<Reservation>, campaign: string, found: set<string>)
    requires RowsOk(rs)
    ensures var qs := CutOffRows(rs, campaign, found); RowsOk(qs) && Quiet(rs, qs, "")
  {
    var qs := CutOffRows(rs, campaign, found);
    forall i: nat | i < |rs|
      ensures RowOk(qs[i]) && Evolves(rs[i], qs[i]) && qs[i].posted == rs[i].posted
    {
      CutOffRowKeeps(rs[i], campaign, found);
    }
  }

  // --------------------------------------------------------------------------- jobs

  lemma LastBarOf(id: string, n: nat)
    ensures LastBar(Bar(id, Decimal(n))) == |id|
    ensures Bar(id, Decimal(n))[..|id|] == id && Bar(id, Decimal(n))[|id| + 1..] == Decimal(n)
  {
    DecimalHasNoBar(n);
    var p, d := Bar(id, Decimal(n)), Decimal(n);
    assert p[|id|] == '|';
    forall k | |id| < k < |p|
      ensures p[k] != '|'
    {
      assert p[k] == d[k - |id| - 1] && p[k] in d;
    }
  }

  /** A reply job's payload is read back as it was written. */
  lemma SplitReadsBack(id: string, n: nat)
    requires n <= INT64_MAX
    ensures SplitReplyPayload(Bar(id, Decimal(n))) == Some((id, n as int))
  {
    LastBarOf(id, n);
    AtoiOfDecimal(n);
  }

  predicate ReplyPayload(p: string, id: string, n: nat) {
    IsUuid(id) && p == Bar(id, Decimal(n))
  }

  /** The reservation has posted its main message. */
  predicate Started(rs: seq<Reservation>, id: string) {
    var i := IndexOf(rs, id);
    i < |rs| && rs[i].posted != []
  }

  ghost predicate PayloadOk(rs: seq<Reservation>, job: Job) {
    match job.kind
    case SendAd => IsUuid(job.payload) && IndexOf(rs, job.payload) < |rs|
    case SendReply => exists id, n :: ReplyPayload(job.payload, id, n) && Started(rs, id)
    case DeletePost => IsUuid(job.payload) && Started(rs, job.payload)
    case Reminder => IsUuid(job.payload)
  }

  /** Started at most once more than the limit says. */
  predicate AttemptsOk(job: Job) {
    && 0 <= job.attempts <= MAX_ATTEMPTS + 1
    && (job.status == JobPending || job.status == JobCancelled ==> job.attempts <= MAX_ATTEMPTS)
    && (job.status == JobRunning ==> job.attempts >= 1)
  }

  /** A send job not done yet means nothing was posted; a reply or an end job means
      that something was. */
  ghost predicate JobOk(rs: seq<Reservation>, job: Job) {
    && PayloadOk(rs, job) && AttemptsOk(job)
    && (job.kind == SendAd && job.status != JobDone ==> rs[IndexOf(rs, job.payload)].posted == [])
  }

  predicate OneSend(jobs: seq<Job>) {
    forall i, k | 0 <= i < k < |jobs| && jobs[i].kind == SendAd && jobs[k].kind == SendAd ::
      jobs[i].payload != jobs[k].payload
  }

  ghost predicate JobsOk(rs: seq<Reservation>, jobs: seq<Job>) {
    (forall k | 0 <= k < |jobs| :: JobOk(rs, jobs[k])) && OneSend(jobs)
  }

  predicate FetchedOk(s: State) {
    && (forall k | 0 <= k < |s.fetched| ::
          s.fetched[k] < |s.jobs| && s.jobs[s.fetched[k]].status in {JobPending, JobCancelled})
    && forall i, k | 0 <= i < k < |s.fetched| :: s.fetched[i] < s.fetched[k]
  }

  ghost predicate Life(s: State) {
    RowsOk(s.reservations) && JobsOk(s.reservations, s.jobs) && FetchedOk(s)
  }

  lemma StartedStays(rs: seq<Reservation>, qs: seq<Reservation>, id: string)
    requires Grows(rs, qs) && Started(rs, id)
    ensures Started(qs, id)
  {}

  lemma JobKept(rs: seq<Reservation>, qs: seq<Reservation>, job: Job, id: string)
    requires JobOk(rs, job) && Quiet(rs, qs, id)
    requires job.kind == SendAd && job.status != JobDone ==> job.payload != id
    ensures JobOk(qs, job)
  {
    match job.kind
    case SendAd => IndexStable(rs, qs, job.payload);
    case SendReply =>
      var rid, n :| ReplyPayload(job.payload, rid, n) && Started(rs, rid);
      StartedStays(rs, qs, rid);
    case DeletePost => StartedStays(rs, qs, job.payload);
    case Reminder =>
  }

  lemma SamePayload(rs: seq<Reservation>, job: Job, job': Job)
    requires JobOk(rs, job) && job'.kind == job.kind && job'.payload == job.payload && AttemptsOk(job')
    requires job'.status != JobDone ==> job.status != JobDone
    ensures JobOk(rs, job')
  {}

  /** The table of jobs keeps its sense when every job keeps its kind and payload and
      none that was done comes back. */
  lemma JobsKept(rs: seq<Reservation>, qs: seq<Reservation>, jobs: seq<Job>, jobs': seq<Job>)
    requires JobsOk(rs, jobs) && Quiet(rs, qs, "") && |jobs'| == |jobs|
    requires forall k | 0 <= k < |jobs| ::
      && jobs'[k].kind == jobs[k].kind && jobs'[k].payload == jobs[k].payload && AttemptsOk(jobs'[k])
      && (jobs'[k].status != JobDone ==> jobs[k].status != JobDone)
    ensures JobsOk(qs, jobs')
  {
    forall k | 0 <= k < |jobs'|
      ensures JobOk(qs, jobs'[k])
    {
      assert JobOk(rs, jobs[k]);
      SamePayload(rs, jobs[k], jobs'[k]);
      JobKept(rs, qs, jobs'[k], "");
    }
  }

  lemma CancelsKeep(rs: seq<Reservation>, qs: seq<Reservation>, jobs: seq<Job>, jobs': seq<Job>)
    requires JobsOk(rs, jobs) && Quiet(rs, qs, "") && |jobs'| == |jobs|
    requires forall k | 0 <= k < |jobs| ::
      jobs'[k] == jobs[k] || (jobs[k].status == JobPending && jobs'[k] == jobs[k].(status := JobCancelled))
    ensures JobsOk(qs, jobs')
  {
    assert forall k | 0 <= k < |jobs| :: JobOk(rs, jobs[k]);
    JobsKept(rs, qs, jobs, jobs');
  }

  // -------------------------------------------------------------------------- steps

  /** Fetched jobs stay startable while only running ones are concluded. */
  lemma FetchedKept(s: State, t: State)
    requires FetchedOk(s) && t.fetched == s.fetched && |s.jobs| <= |t.jobs|
    requires forall k | 0 <= k < |s.jobs| && s.jobs[k].status in {JobPending, JobCancelled} ::
      t.jobs[k].status in {JobPending, JobCancelled}
    ensures FetchedOk(t)
  {}

  lemma CutOffStep(s: State, campaign: string, found: set<string>)
    requires Life(s)
    ensures Life(CutOffCampaign(s, campaign, found))
    ensures Grows(s.reservations, CutOffCampaign(s, campaign, found).reservations)
  {
    var t := CutOffCampaign(s, campaign, found);
    CutOffKeeps(s.reservations, campaign, found);
    CancelsKeep(s.reservations, t.reservations, s.jobs, t.jobs);
    FetchedKept(s, t);
  }

  lemma AddJob(rs: seq<Reservation>, jobs: seq<Job>, job: Job)
    requires JobsOk(rs, jobs) && JobOk(rs, job)
    requires job.kind == SendAd ==>
      forall k | 0 <= k < |jobs| && jobs[k].kind == SendAd :: jobs[k].payload != job.payload
    ensures JobsOk(rs, jobs + [job])
  {
    var js := jobs + [job];
    forall k | 0 <= k < |js|
      ensures JobOk(rs, js[k])
    {
      if k < |jobs| {
        assert JobOk(rs, jobs[k]);
      }
    }
  }

  lemma AddRow(rs: seq<Reservation>, r: Reservation)
    requires RowsOk(rs) && RowOk(r) && IndexOf(rs, r.id) == |rs|
    ensures RowsOk(rs + [r]) && Quiet(rs, rs + [r], "") && IndexOf(rs + [r], r.id) == |rs|
  {
    RowsAppended(rs, r);
    GrowsSelf(rs);
    var qs := rs + [r];
    assert qs[..|rs|] == rs && qs[|rs|] == r;
    assert forall i | 0 <= i < |rs| :: qs[i] == rs[i] && rs[i].id != r.id;
  }

  lemma RowsAppended(rs: seq<Reservation>, r: Reservation)
    requires RowsOk(rs) && RowOk(r) && forall i | 0 <= i < |rs| :: rs[i].id != r.id
    ensures RowsOk(rs + [r])
  {
    var qs := rs + [r];
    forall i | 0 <= i < |qs|
      ensures RowOk(qs[i])
    {
      assert i < |rs| ==> qs[i] == rs[i];
    }
  }

  lemma GrowsSelf(rs: seq<Reservation>)
    ensures Quiet(rs, rs, "") && Grows(rs, rs)
  {}

  /** A new row with its send job, and with a reminder if wanted. */
  lemma AddPlanned(rs: seq<Reservation>, r: Reservation, jobs: seq<Job>, send: Job, remind: Job)
    requires RowsOk(rs) && JobsOk(rs, jobs) && RowOk(r) && r.posted == [] && IndexOf(rs, r.id) == |rs|
    requires send.kind == SendAd && remind.kind == Reminder && send.payload == remind.payload == r.id
    requires AttemptsOk(send) && AttemptsOk(remind)
    ensures RowsOk(rs + [r]) && Quiet(rs, rs + [r], "")
    ensures JobsOk(rs + [r], jobs + [send]) && JobsOk(rs + [r], jobs + [send] + [remind])
  {
    AddRow(rs, r);
    CancelsKeep(rs, rs + [r], jobs, jobs);
    forall k | 0 <= k < |jobs| && jobs[k].kind == SendAd
      ensures jobs[k].payload != send.payload
    {
      assert JobOk(rs, jobs[k]);
    }
    AddJob(rs + [r], jobs, send);
    AddJob(rs + [r], jobs + [send], remind);
  }

  lemma ReserveStep(s: State, r: Reservation, now: Instant, lead: int)
    requires Life(s) && IndexOf(s.reservations, r.id) == |s.reservations|
    requires r.Open() && r.posted == r.live == [] && r.shown == {}
    ensures Life(Reserve(s, r, now, lead)) && Grows(s.reservations, Reserve(s, r, now, lead).reservations)
  {
    var send := Job(SendAd, JobPending, r.campaign, r.ad, r.channel, r.scheduledAt, 0, r.id);
    var remind := Job(Reminder, JobPending, r.campaign, r.ad, r.channel, RemindAt(r.scheduledAt, now, lead), 0, r.id);
    AddPlanned(s.reservations, r, s.jobs, send, remind);
    FetchedKept(s, Reserve(s, r, now, lead));
  }

  lemma PlanChannelStep(s: State, cm: Campaign, ad: Ad, channel: string, start: Instant, now: Instant, lead: int,
                        newId: nat -> Uuid)
    requires Life(s)
    ensures var t := PlanChannel(s, cm, ad, channel, start, now, lead, newId);
      Life(t) && Grows(s.reservations, t.reservations)
  {
    var id := newId(|s.reservations|);
    if IndexOf(s.reservations, id) == |s.reservations| {
      var due := NextDue(s.reservations, cm, ad, channel, start);
      ReserveStep(s, NewReservation(id, cm.id, ad.id, channel, due), now, lead);
    }
  }

  lemma {:induction false} PlanChannelsStep(
    s: State, cm: Campaign, ad: Ad, channels: seq<string>, start: Instant, now: Instant, lead: int, newId: nat -> Uuid)
    requires Life(s)
    ensures var t := PlanChannels(s, cm, ad, channels, start, now, lead, newId);
      Life(t) && Grows(s.reservations, t.reservations)
    decreases |channels|
  {
    if channels != [] {
      var most := channels[..|channels| - 1];
      var u := PlanChannels(s, cm, ad, most, start, now, lead, newId);
      var t := PlanChannel(u, cm, ad, channels[|channels| - 1], start, now, lead, newId);
      PlanChannelsStep(s, cm, ad, most, start, now, lead, newId);
      PlanChannelStep(u, cm, ad, channels[|channels| - 1], start, now, lead, newId);
      GrowsChain(s.reservations, u.reservations, t.reservations);
    }
  }

  lemma PlanCampaignStep(s: State, cm: Campaign, now: Instant, lead: int, newId: nat -> Uuid)
    requires Life(s)
    ensures var t := PlanCampaign(s, cm, now, lead, newId);
      Life(t) && Grows(s.reservations, t.reservations)
  {
    GrowsSelf(s.reservations);
    if !InDailyWindow(now, cm.window) {
      CutOffStep(s, cm.id, cm.found);
    } else if cm.ads != [] {
      PlanChannelsStep(s, cm, CurrentAd(cm, now), cm.channels, CurrentWindowStart(now, cm.window), now, lead, newId);
    }
  }

  lemma {:induction false} PlanStep(s: State, campaigns: seq<Campaign>, now: Instant, lead: int, newId: nat -> Uuid)
    requires Life(s)
    ensures var t := PlanCampaigns(s, campaigns, now, lead, newId);
      Life(t) && Grows(s.reservations, t.reservations)
    decreases |campaigns|
  {
    if campaigns != [] {
      var most := campaigns[..|campaigns| - 1];
      var u := PlanCampaigns(s, most, now, lead, newId);
      PlanStep(s, most, now, lead, newId);
      PlanCampaignStep(u, campaigns[|campaigns| - 1], now, lead, newId);
      GrowsChain(s.reservations, u.reservations,
                 PlanCampaign(u, campaigns[|campaigns| - 1], now, lead, newId).reservations);
    }
  }

  lemma StartStep(s: State)
    requires Life(s)
    ensures Life(StartJob(s)) && Grows(s.reservations, StartJob(s).reservations)
  {
    var t := StartJob(s);
    GrowsSelf(s.reservations);
    if s.fetched != [] {
      assert JobOk(s.reservations, s.jobs[s.fetched[0]]);
      assert forall k | 0 <= k < |s.jobs| :: JobOk(s.reservations, s.jobs[k]);
      JobsKept(s.reservations, s.reservations, s.jobs, t.jobs);
      StartKeepsFetched(s);
    }
  }

  lemma StartKeepsFetched(s: State)
    requires FetchedOk(s)
    ensures FetchedOk(StartJob(s))
  {
    var t := StartJob(s);
    if s.fetched != [] {
      forall k | 0 <= k < |t.fetched|
        ensures t.fetched[k] < |t.jobs| && t.jobs[t.fetched[k]].status in {JobPending, JobCancelled}
      {
        assert t.fetched[k] == s.fetched[k + 1] > s.fetched[0];
      }
    }
  }

  lemma {:induction false} DueJobsAreDue(jobs: seq<Job>, now: Instant)
    ensures var due := DueJobs(jobs, now);
      && |due| <= 50
      && (forall k | 0 <= k < |due| ::
            due[k] < |jobs| && jobs[due[k]].status == JobPending && jobs[due[k]].runAt <= now)
      && forall i, k | 0 <= i < k < |due| :: due[i] < due[k]
    decreases |jobs|
  {
    if jobs != [] {
      DueJobsAreDue(jobs[..|jobs| - 1], now);
    }
  }

  /** A tick takes up every pending job that is due, unless there are fifty. */
  lemma {:induction false} AllDueAreFetched(jobs: seq<Job>, now: Instant)
    ensures |DueJobs(jobs, now)| < 50 ==>
      forall k: nat :: k in DueJobs(jobs, now) <==>
        k < |jobs| && jobs[k].status == JobPending && jobs[k].runAt <= now
    decreases |jobs|
  {
    if jobs != [] {
      AllDueAreFetched(jobs[..|jobs| - 1], now);
    }
  }

  lemma FetchStep(s: State, now: Instant)
    requires Life(s)
    ensures Life(Step(s, Fetch(now))) && Grows(s.reservations, Step(s, Fetch(now)).reservations)
  {
    DueJobsAreDue(s.jobs, now);
  }

  // ------------------------------------------------------------------- running jobs

  lemma JobUpdated(rs: seq<Reservation>, qs: seq<Reservation>, jobs: seq<Job>, j: nat, job: Job)
    requires JobsOk(rs, jobs) && Quiet(rs, qs, "") && j < |jobs| && jobs[j].status != JobDone && AttemptsOk(job)
    requires job.kind == jobs[j].kind && job.payload == jobs[j].payload
    ensures JobsOk(qs, jobs[j := job])
  {
    assert forall k | 0 <= k < |jobs| :: JobOk(rs, jobs[k]);
    JobsKept(rs, qs, jobs, jobs[j := job]);
  }

  lemma MarkDoneStep(s: State, j: nat)
    requires Life(s) && j < |s.jobs| && s.jobs[j].status == JobRunning
    ensures Life(MarkJobDone(s, j))
  {
    assert JobOk(s.reservations, s.jobs[j]);
    JobUpdated(s.reservations, s.reservations, s.jobs, j, s.jobs[j].(status := JobDone));
    FetchedKept(s, MarkJobDone(s, j));
  }

  lemma FailRow(rs: seq<Reservation>, i: nat)
    requires RowsOk(rs) && i < |rs|
    ensures var qs := rs[i := rs[i].(status := ResFailed)]; RowsOk(qs) && Quiet(rs, qs, "")
  {
    UpdateRow(rs, i, rs[i].(status := ResFailed), "");
  }

  lemma ConcludeStep(s: State, j: nat, err: bool, now: Instant)
    requires Life(s) && j < |s.jobs| && s.jobs[j].status == JobRunning
    ensures var t := Conclude(s, j, err, now);
      Life(t) && Quiet(s.reservations, t.reservations, "")
  {
    var t, i := Conclude(s, j, err, now), IndexOf(s.reservations, s.jobs[j].payload);
    if !err {
      MarkDoneStep(s, j);
    } else {
      assert JobOk(s.reservations, s.jobs[j]);
      assert |t.jobs| == |s.jobs| && t.jobs == s.jobs[j := t.jobs[j]] && t.fetched == s.fetched;
      if t.reservations != s.reservations {
        FailRow(s.reservations, i);
      }
      assert Quiet(s.reservations, t.reservations, "") && RowsOk(t.reservations);
      JobUpdated(s.reservations, t.reservations, s.jobs, j, t.jobs[j]);
      FetchedKept(s, t);
    }
  }

  /** The table after a main post: only the row of the send job starts a history. */
  lemma AdRowsKeep(rs: seq<Reservation>, channel: string, i: nat, m: int, env: Env, end: Option<Instant>)
    requires RowsOk(rs) && i < |rs| && rs[i].posted == []
    ensures var qs := AdRows(rs, channel, i, m, env, end);
      RowsOk(qs) && Quiet(rs, qs, rs[i].id) && qs[i].posted != []
  {
    var id := rs[i].id;
    var ps := rs[i := MainPosted(rs[i], m)];
    UpdateRow(rs, i, MainPosted(rs[i], m), id);
    var shown := AfterPost(ps, channel, m, env.reposted);
    AfterPostKeeps(ps, channel, m, env.reposted, id);
    QuietChain(rs, ps, shown, id);
    assert Evolves(ps[i], shown[i]);
    UpdateRow(shown, i, shown[i].(deleteAt := end), id);
    QuietChain(rs, shown, shown[i := shown[i].(deleteAt := end)], id);
  }

  /** Every job stays right when the row of a finished send job starts its history. */
  lemma JobsAfterMainPost(rs: seq<Reservation>, qs: seq<Reservation>, jobs: seq<Job>, j: nat)
    requires JobsOk(rs, jobs) && j < |jobs| && jobs[j].kind == SendAd && jobs[j].status == JobDone
    requires Quiet(rs, qs, jobs[j].payload)
    ensures JobsOk(qs, jobs)
  {
    forall k | 0 <= k < |jobs|
      ensures JobOk(qs, jobs[k])
    {
      assert JobOk(rs, jobs[k]);
      JobKept(rs, qs, jobs[k], jobs[j].payload);
    }
  }

  lemma NewJobOk(rs: seq<Reservation>, of: Job, ad: Ad, at: Instant, id: string, idx: nat)
    requires IsUuid(id) && Started(rs, id)
    ensures JobOk(rs, NewJob(DeletePost, of, "", at, id)) && JobOk(rs, ReplyJob(of, ad, at, id, idx))
  {
    assert ReplyPayload(ReplyJob(of, ad, at, id, idx).payload, id, idx);
  }

  lemma AdJobsOk(job: Job, ad: Ad, cm: Campaign, now: Instant, rs: seq<Reservation>)
    requires IsUuid(job.payload) && Started(rs, job.payload)
    ensures forall k | 0 <= k < |AdJobs(job, ad, cm, now)| ::
      AdJobs(job, ad, cm, now)[k].kind != SendAd && JobOk(rs, AdJobs(job, ad, cm, now)[k])
  {
    NewJobOk(rs, job, ad, now + Minutes(cm.deleteAfterMinutes), job.payload, 0);
    NewJobOk(rs, job, ad, now + Minutes(cm.intervalMinutes), job.payload, 0);
  }

  lemma PostAdRows(s: State, j: nat, ad: Ad, cm: Campaign, m: int, env: Env)
    requires Life(s) && j < |s.jobs| && s.jobs[j].status == JobRunning && s.jobs[j].kind == SendAd
    ensures var qs := PostAd(s, s.jobs[j], ad, cm, m, env).reservations;
      && RowsOk(qs) && Quiet(s.reservations, qs, s.jobs[j].payload) && IsUuid(s.jobs[j].payload)
      && Started(qs, s.jobs[j].payload)
  {
    var job := s.jobs[j];
    assert JobOk(s.reservations, job);
    var i, end := IndexOf(s.reservations, job.payload), NetAt(job, cm, env.now);
    AdRowsKeep(s.reservations, job.channel, i, m, env, end);
    IndexStable(s.reservations, AdRows(s.reservations, job.channel, i, m, env, end), job.payload);
  }

  lemma PostAdStep(s: State, j: nat, ad: Ad, cm: Campaign, m: int, env: Env)
    requires Life(s) && j < |s.jobs| && s.jobs[j].status == JobRunning && s.jobs[j].kind == SendAd
    ensures var t := PostAd(s, s.jobs[j], ad, cm, m, env);
      Life(MarkJobDone(t, j)) && Grows(s.reservations, t.reservations)
  {
    var t := PostAd(s, s.jobs[j], ad, cm, m, env);
    PostAdRows(s, j, ad, cm, m, env);
    AdJobsOk(s.jobs[j], ad, cm, env.now, t.reservations);
    FinishedWith(s, t, j, AdJobs(s.jobs[j], ad, cm, env.now));
  }

  lemma SendAdStep(s: State, j: nat, env: Env)
    requires Life(s) && j < |s.jobs| && s.jobs[j].status == JobRunning && s.jobs[j].kind == SendAd
    ensures Life(RunJobStep(s, j, env)) && Grows(s.reservations, RunJobStep(s, j, env).reservations)
  {
    if env.ad.Some? && env.channelFound && env.campaign.Some? && env.copied.Some? {
      PostAdStep(s, j, env.ad.value, env.campaign.value, env.copied.value, env);
    } else {
      ConcludeStep(s, j, SendAdHandler(s, s.jobs[j], env).1, env.now);
    }
  }

  lemma FinishedFetched(s: State, t: State, j: nat, more: seq<Job>)
    requires FetchedOk(s) && j < |s.jobs| && s.jobs[j].status == JobRunning
    requires t.fetched == s.fetched && t.jobs == s.jobs + more
    ensures FetchedOk(MarkJobDone(t, j))
    ensures MarkJobDone(t, j).jobs == MarkJobDone(s, j).jobs + more
  {}

  /** A successful handler's rows and further jobs, with job j then done. */
  lemma FinishedWith(s: State, t: State, j: nat, more: seq<Job>)
    requires Life(s) && j < |s.jobs| && s.jobs[j].status == JobRunning
    requires t.fetched == s.fetched && t.jobs == s.jobs + more && RowsOk(t.reservations)
    requires Quiet(s.reservations, t.reservations, if s.jobs[j].kind == SendAd then s.jobs[j].payload else "")
    requires forall k | 0 <= k < |more| :: more[k].kind != SendAd && JobOk(t.reservations, more[k])
    ensures Life(MarkJobDone(t, j))
  {
    MarkDoneStep(s, j);
    var done := MarkJobDone(s, j).jobs;
    JobsAfter(s.reservations, t.reservations, done, j);
    MoreJobs(t.reservations, done, more);
    FinishedFetched(s, t, j, more);
  }

  lemma JobsAfter(rs: seq<Reservation>, qs: seq<Reservation>, jobs: seq<Job>, j: nat)
    requires JobsOk(rs, jobs) && j < |jobs| && jobs[j].status == JobDone
    requires Quiet(rs, qs, if jobs[j].kind == SendAd then jobs[j].payload else "")
    ensures JobsOk(qs, jobs)
  {
    if jobs[j].kind == SendAd {
      JobsAfterMainPost(rs, qs, jobs, j);
    } else {
      assert forall k | 0 <= k < |jobs| :: JobOk(rs, jobs[k]);
      JobsKept(rs, qs, jobs, jobs);
    }
  }

  lemma MoreJobs(rs: seq<Reservation>, jobs: seq<Job>, more: seq<Job>)
    requires JobsOk(rs, jobs)
    requires forall k | 0 <= k < |more| :: more[k].kind != SendAd && JobOk(rs, more[k])
    ensures JobsOk(rs, jobs + more)
  {}

  lemma ReplyRow(r: Reservation, m: int, index: int)
    requires RowOk(r) && r.live != []
    ensures var q := ReplyPosted(r, m, index); RowOk(q) && Evolves(r, q) && q.posted != []
  {
    var q := ReplyPosted(r, m, index);
    LiveWasPosted(r);
    assert q.posted[|r.posted|..] == [m];
    forall k | 0 <= k < |q.live|
      ensures q.live[k] in q.posted
    {
      assert q.posted[|r.posted|] == m;
      assert r.live[0] in r.posted;
    }
  }

  lemma ClearReplyStep(s: State, i: nat)
    requires Life(s) && i < |s.reservations|
    ensures Life(ClearReply(s, i)) && Quiet(s.reservations, ClearReply(s, i).reservations, "")
  {
    var t := ClearReply(s, i);
    UpdateRow(s.reservations, i, ReplyDeleted(s.reservations[i]), "");
    CancelsKeep(s.reservations, t.reservations, s.jobs, t.jobs);
  }

  lemma ReplyRowsKeep(rs: seq<Reservation>, channel: string, i: nat, idx: nat, m: int, env: Env, end: Option<Instant>)
    requires RowsOk(rs) && i < |rs| && rs[i].live != []
    ensures var qs := ReplyRows(rs, channel, i, idx, m, env, end);
      RowsOk(qs) && Quiet(rs, qs, "") && qs[i].posted != []
  {
    ReplyRow(rs[i], m, idx);
    LiveWasPosted(rs[i]);
    var ps := rs[i := ReplyPosted(rs[i], m, idx)];
    UpdateRow(rs, i, ReplyPosted(rs[i], m, idx), "");
    var shown := AfterPost(ps, channel, m, env.reposted);
    AfterPostKeeps(ps, channel, m, env.reposted, "");
    QuietChain(rs, ps, shown, "");
    assert Evolves(ps[i], shown[i]);
    UpdateRow(shown, i, shown[i].(deleteAt := end), "");
    QuietChain(rs, shown, shown[i := shown[i].(deleteAt := end)], "");
  }

  lemma PostReplyRows(rs: seq<Reservation>, channel: string, i: nat, idx: nat, m: int, env: Env, end: Option<Instant>)
    requires RowsOk(rs) && i < |rs| && rs[i].live != []
    ensures var qs := ReplyRows(rs, channel, i, idx, m, env, end);
      RowsOk(qs) && Quiet(rs, qs, "") && Started(qs, rs[i].id)
  {
    ReplyRowsKeep(rs, channel, i, idx, m, env, end);
    assert IndexOf(rs, rs[i].id) == i;
    IndexStable(rs, ReplyRows(rs, channel, i, idx, m, env, end), rs[i].id);
  }

  lemma PostReplyStep(s: State, j: nat, ad: Ad, i: nat, idx: nat, m: int, env: Env)
    requires Life(s) && j < |s.jobs| && s.jobs[j].status == JobRunning && s.jobs[j].kind == SendReply
    requires i < |s.reservations| && s.reservations[i].live != [] && idx < |ad.replies|
    ensures var t := PostReply(s, s.jobs[j], ad, i, idx, m, env);
      Life(MarkJobDone(t, j)) && Grows(s.reservations, t.reservations)
  {
    var t, id := PostReply(s, s.jobs[j], ad, i, idx, m, env), s.reservations[i].id;
    PostReplyRows(s.reservations, s.jobs[j].channel, i, idx, m, env, ReplyEnd(ad, idx, env.now));
    AfterReplyOk(t.reservations, s.jobs[j], ad, id, idx, env.now);
    FinishedWithOne(s, t, j, AfterReply(s.jobs[j], ad, id, idx, env.now));
  }

  lemma FinishedWithOne(s: State, t: State, j: nat, job: Job)
    requires Life(s) && j < |s.jobs| && s.jobs[j].status == JobRunning && s.jobs[j].kind != SendAd
    requires t.fetched == s.fetched && t.jobs == s.jobs + [job] && RowsOk(t.reservations)
    requires Quiet(s.reservations, t.reservations, "")
    requires job.kind != SendAd && JobOk(t.reservations, job)
    ensures Life(MarkJobDone(t, j))
  {
    FinishedWith(s, t, j, [job]);
  }

  lemma AfterReplyOk(rs: seq<Reservation>, of: Job, ad: Ad, id: string, idx: nat, now: Instant)
    requires IsUuid(id) && Started(rs, id) && idx < |ad.replies|
    ensures var job := AfterReply(of, ad, id, idx, now); job.kind != SendAd && JobOk(rs, job)
  {
    NewJobOk(rs, of, ad, now + Minutes(ad.replies[idx]), id, idx + 1);
  }

  lemma SendReplyStep(s: State, j: nat, env: Env)
    requires Life(s) && j < |s.jobs| && s.jobs[j].status == JobRunning && s.jobs[j].kind == SendReply
    ensures Life(RunJobStep(s, j, env)) && Grows(s.reservations, RunJobStep(s, j, env).reservations)
  {
    if Replies(s, s.jobs[j], env) {
      var (id, idx) := SplitReplyPayload(s.jobs[j].payload).value;
      ReplyStep(s, j, env.ad.value, IndexOf(s.reservations, id), idx, env);
    } else {
      NoReply(s, s.jobs[j], env);
      ConcludeStep(s, j, SendReplyHandler(s, s.jobs[j], env).1, env.now);
    }
  }

  lemma NoReply(s: State, job: Job, env: Env)
    requires !Replies(s, job, env)
    ensures SendReplyHandler(s, job, env).0 == s
  {}

  lemma ReplyStep(s: State, j: nat, ad: Ad, i: nat, idx: nat, env: Env)
    requires Life(s) && j < |s.jobs| && s.jobs[j].status == JobRunning && s.jobs[j].kind == SendReply
    requires i < |s.reservations| && s.reservations[i].live != [] && idx < |ad.replies|
    ensures var (t, err) := Reply(s, s.jobs[j], ad, i, idx, env);
      && j < |t.jobs| && Life(Conclude(t, j, err, env.now))
      && Grows(s.reservations, Conclude(t, j, err, env.now).reservations)
  {
    ClearReplyStep(s, i);
    var c := ClearReply(s, i);
    if env.copied.None? {
      ConcludeStep(c, j, true, env.now);
      GrowsChain(s.reservations, c.reservations, Conclude(c, j, true, env.now).reservations);
    } else {
      var t := PostReply(c, c.jobs[j], ad, i, idx, env.copied.value, env);
      PostReplyStep(c, j, ad, i, idx, env.copied.value, env);
      GrowsChain(s.reservations, c.reservations, t.reservations);
    }
  }

  /** The reply handler gets as far as clearing the reply before. */
  predicate Replies(s: State, job: Job, env: Env) {
    var split := SplitReplyPayload(job.payload);
    split.Some? &&
    var i := IndexOf(s.reservations, split.value.0);
    && i < |s.reservations| && s.reservations[i].live != [] && env.channelFound
    && env.ad.Some? && 0 <= split.value.1 < |env.ad.value.replies|
  }

  lemma ExpiredRow(r: Reservation, found: bool)
    requires RowOk(r) && r.posted != []
    ensures var q := Expired(r, found); RowOk(q) && Evolves(r, q)
  {}

  lemma EndCycleKeeps(s: State, id: string, found: bool)
    requires Life(s)
    requires var i := IndexOf(s.reservations, id); i < |s.reservations| ==> s.reservations[i].posted != []
    ensures Life(EndCycle(s, id, found)) && Quiet(s.reservations, EndCycle(s, id, found).reservations, "")
  {
    var i := IndexOf(s.reservations, id);
    if i < |s.reservations| {
      var q := Expired(s.reservations[i], found);
      ExpiredRow(s.reservations[i], found);
      UpdateRow(s.reservations, i, q, "");
      CancelsKeep(s.reservations, s.reservations[i := q], s.jobs, CancelReservationJobs(s.jobs, id));
      FetchedKept(s, EndCycle(s, id, found));
    }
  }

  lemma DeletePostStep(s: State, j: nat, env: Env)
    requires Life(s) && j < |s.jobs| && s.jobs[j].status == JobRunning && s.jobs[j].kind == DeletePost
    ensures Life(RunJobStep(s, j, env)) && Grows(s.reservations, RunJobStep(s, j, env).reservations)
  {
    var job := s.jobs[j];
    assert JobOk(s.reservations, job);
    EndCycleKeeps(s, job.payload, env.channelFound);
    var t := Handle(s, job, env).0;
    ConcludeStep(t, j, false, env.now);
    GrowsChain(s.reservations, t.reservations, Conclude(t, j, false, env.now).reservations);
  }

  // --------------------------------------------------------------------------- runs

  /** Every step keeps the invariant, and no row loses history, reopens, or shows
      anything again once its cycle has ended. */
  lemma StepKeepsLife(s: State, e: Event)
    requires Life(s)
    ensures Life(Step(s, e)) && Grows(s.reservations, Step(s, e).reservations)
  {
    match e
    case Plan(campaigns, now, lead, newId) => PlanStep(s, campaigns, now, lead, newId);
    case Fetch(now) => FetchStep(s, now);
    case StartNext => StartStep(s);
    case RunJob(j, env) =>
      if j < |s.jobs| && s.jobs[j].status == JobRunning {
        match s.jobs[j].kind
        case SendAd => SendAdStep(s, j, env);
        case SendReply => SendReplyStep(s, j, env);
        case DeletePost => DeletePostStep(s, j, env);
        case Reminder => ConcludeStep(s, j, env.reminderFails, env.now);
      }
  }

  lemma {:induction false} RunKeepsLife(s: State, events: seq<Event>)
    requires Life(s)
    ensures Life(RunFrom(s, events)) && Grows(s.reservations, RunFrom(s, events).reservations)
    decreases |events|
  {
    if events != [] {
      var before := RunFrom(s, events[..|events| - 1]);
      RunKeepsLife(s, events[..|events| - 1]);
      StepKeepsLife(before, events[|events| - 1]);
      GrowsChain(s.reservations, before.reservations, RunFrom(s, events).reservations);
    }
  }

  /** In every reachable state every reservation lists at most two live messages, all of
      them in its history; a Sent one lists some, an expired one none; what is in the
      channel of it was posted for it; and no job has been started more than four
      times, one over its limit. */
  lemma {:induction false} ReservationsAreOrderly(events: seq<Event>)
    ensures var s := RunFrom(EMPTY, events);
      && (forall i | 0 <= i < |s.reservations| :: RowOk(s.reservations[i]))
      && (forall i, k | 0 <= i < k < |s.reservations| :: s.reservations[i].id != s.reservations[k].id)
      && (forall k | 0 <= k < |s.jobs| :: s.jobs[k].attempts <= MAX_ATTEMPTS + 1)
  {
    RunKeepsLife(EMPTY, events);
    var s := RunFrom(EMPTY, events);
    assert forall k | 0 <= k < |s.jobs| :: JobOk(s.reservations, s.jobs[k]);
  }

  lemma {:induction false} RunSplits(s: State, a: seq<Event>, b: seq<Event>)
    ensures RunFrom(s, a + b) == RunFrom(RunFrom(s, a), b)
    decreases |b|
  {
    if b == [] {
      assert a + b == a;
    } else {
      assert (a + b)[..|a + b| - 1] == a + b[..|b| - 1];
      RunSplits(s, a, b[..|b| - 1]);
    }
  }

  lemma OneStep(s: State, events: seq<Event>, e: Event)
    ensures RunFrom(s, events + [e]) == Step(RunFrom(s, events), e)
  {}

  /** However a run goes on, a posted history is never rewritten. A copy the table has
      lost sight of stays in the channel, unless its ID is posted again; and once a
      reservation has expired, what is in the channel of it is there for good. */
  lemma {:induction false} EndedStaysEnded(events: seq<Event>, more: seq<Event>, i: nat)
    requires i < |RunFrom(EMPTY, events).reservations|
    ensures i < |RunFrom(EMPTY, events + more).reservations|
    ensures var r, q := RunFrom(EMPTY, events).reservations[i], RunFrom(EMPTY, events + more).reservations[i];
      && q.id == r.id && r.posted <= q.posted
      && Abandoned(r) - Ids(q.posted[|r.posted|..]) <= Abandoned(q)
      && (r.status == ResExpired ==>
            q.live == [] && q.shown == r.shown && q.posted == r.posted && q.status in {ResExpired, ResFailed})
  {
    RunKeepsLife(EMPTY, events);
    RunSplits(EMPTY, events, more);
    RunKeepsLife(RunFrom(EMPTY, events), more);
    var r, q := RunFrom(EMPTY, events).reservations[i], RunFrom(EMPTY, events + more).reservations[i];
    assert Evolves(r, q) && RowOk(r) && RowOk(q);
  }

  /** A reply job's index is never negative, in any reachable state. */
  lemma {:induction false} ReplyIndexIsNatural(events: seq<Event>, k: nat)
    requires k < |RunFrom(EMPTY, events).jobs| && RunFrom(EMPTY, events).jobs[k].kind == SendReply
    ensures var split := SplitReplyPayload(RunFrom(EMPTY, events).jobs[k].payload);
      split.Some? ==> split.value.1 >= 0
  {
    RunKeepsLife(EMPTY, events);
    var s := RunFrom(EMPTY, events);
    var job := s.jobs[k];
    assert JobOk(s.reservations, job);
    var id, n :| ReplyPayload(job.payload, id, n) && Started(s.reservations, id);
    SplitIndex(id, n);
  }

  lemma SplitIndex(id: string, n: nat)
    ensures var split := SplitReplyPayload(Bar(id, Decimal(n))); split.Some? ==> split.value.1 >= 0
  {
    LastBarOf(id, n);
    NoMinus(n);
  }

  lemma NoMinus(n: nat)
    ensures var v := Atoi(Decimal(n)); v.Some? ==> v.value >= 0
  {
    assert IsDigit(Digits(n)[0]);
  }
}
