/** Reservations, jobs and the planner of the ad scheduler (admanager-bot). Job
    handlers and planner passes are atomic steps; what Telegram and the lookups
    answer comes from outside. */
module Scheduler {
  import opened Text
  import opened Schedule

  datatype ReservationStatus = ResPending | ResConfirmed | ResSent | ResCancelled | ResFailed | ResExpired

  /** The columns of a row, and last what is no column: the messages of it that are in
      the channel, posted and not deleted. */
  datatype Reservation = Reservation(
    id: Uuid, campaign: string, ad: string, channel: string, status: ReservationStatus,
    scheduledAt: Instant, live: seq<int>, posted: seq<int>, replyIndex: int, deleteAt: Option<Instant>,
    shown: set<int>)
  {
    predicate Open() {
      status == ResPending || status == ResConfirmed
    }

    predicate For(campaign: string, channel: string) {
      this.campaign == campaign && this.channel == channel
    }
  }

  datatype JobKind = SendAd | SendReply | DeletePost | Reminder
  datatype JobStatus = JobPending | JobRunning | JobDone | JobFailed | JobCancelled

  const MAX_ATTEMPTS: int := 3

  datatype Job = Job(
    kind: JobKind, status: JobStatus, campaign: string, ad: string, channel: string,
    runAt: Instant, attempts: int, payload: string)

  /** Jobs are known by their row number; `fetched` is what a tick has listed as due
      and not yet started. */
  datatype State = State(reservations: seq<Reservation>, jobs: seq<Job>, fetched: seq<nat>)

  /** An ad with the durations of its replies, in minutes. */
  datatype Ad = Ad(id: string, replies: seq<int>)

  /** A campaign as a pass sees it, with the channels it targets and those that are
      found when its messages are to be deleted. */
  datatype Campaign = Campaign(
    id: string, window: Window, intervalMinutes: int, deleteAfterMinutes: int, rotationMinutes: int,
    endAt: Option<Instant>, ads: seq<Ad>, channels: seq<string>, found: set<string>)

  /** A keep-last ad sent again, and whether its earlier copies are to be deleted. */
  datatype Repost = Repost(message: int, deletesOld: bool)

  /** What the outside answers a job: lookups, the ID of the copied message (None
      when Copy fails), and per reservation row what a keep-last ad got on being sent
      again. Deletions succeed. */
  datatype Env = Env(
    now: Instant, ad: Option<Ad>, channelFound: bool, campaign: Option<Campaign>,
    copied: Option<int>, reposted: nat -> Option<Repost>, reminderFails: bool)

  datatype Event =
    | Plan(campaigns: seq<Campaign>, now: Instant, reminderLead: int, newId: nat -> Uuid)
    | Fetch(now: Instant)
    | StartNext
    | RunJob(job: nat, env: Env)

  // -------------------------------------------------------------- reservation rows

  /** The row with this ID, or the table's length. */
  function IndexOf(rs: seq<Reservation>, id: string): (i: nat)
    ensures i <= |rs| && (i < |rs| ==> rs[i].id == id)
    ensures forall k | 0 <= k < i :: rs[k].id != id
  {
    if rs == [] then 0
    else
      var i := IndexOf(rs[..|rs| - 1], id);
      if i < |rs| - 1 || rs[|rs| - 1].id == id then i else |rs|
  }


  function Ids(messages: seq<int>): set<int> {
    set m | m in messages
  }

  function MainPosted(r: Reservation, messageId: int): Reservation {
    r.(status := ResSent, live := [messageId], replyIndex := -1, posted := [messageId], shown := r.shown + {messageId})
  }

  /** The reply shown so far is deleted before the next one is sent. */
  function ReplyDeleted(r: Reservation): Reservation {
    if |r.live| > 1 then r.(shown := r.shown - {r.live[1]}) else r
  }

  /** The main post stays, the reply takes the place of the one before. */
  function ReplyPosted(r: Reservation, messageId: int, index: int): Reservation {
    var main := if |r.live| > 0 then r.live[0] else 0;
    r.(live := (if main != 0 then [main] else []) + [messageId],
       replyIndex := index, posted := r.posted + [messageId], shown := r.shown + {messageId})
  }

  /** The new copy is the only live message; the earlier ones are deleted or left. */
  function Reposted(r: Reservation, again: Repost): Reservation {
    r.(live := [again.message], posted := r.posted + [again.message],
       shown := (if again.deletesOld then r.shown - Ids(r.live) else r.shown) + {again.message})
  }

  /** The live messages are deleted if their channel is found. */
  function Expired(r: Reservation, found: bool): Reservation {
    r.(status := ResExpired, live := [], shown := if found then r.shown - Ids(r.live) else r.shown)
  }

  // ------------------------------------------------------------- whole-table updates

  /** afterPost: every other live reservation of the channel whose keep-last ad was
      sent again shows only the new message. */
  function AfterPostRow(r: Reservation, channel: string, justPosted: int, again: Option<Repost>): Reservation {
    if r.channel == channel && r.status == ResSent && |r.live| > 0
       && r.live[|r.live| - 1] != justPosted && again.Some?
    then Reposted(r, again.value) else r
  }

  function AfterPost(
    rs: seq<Reservation>, channel: string, justPosted: int, reposted: nat -> Option<Repost>): (out: seq<Reservation>)
    ensures |out| == |rs|
    ensures forall i: nat | i < |rs| :: out[i] == AfterPostRow(rs[i], channel, justPosted, reposted(i))
  {
    if rs == [] then []
    else
      var n := |rs| - 1;
      AfterPost(rs[..n], channel, justPosted, reposted) + [AfterPostRow(rs[n], channel, justPosted, reposted(n))]
  }

  /** The pending job belongs to this reservation: its ID, or its ID and an index. */
  predicate BelongsTo(payload: string, id: string) {
    payload == id || id + "|" <= payload
  }

  function CancelIf(j: Job, hit: bool): Job {
    if j.status == JobPending && hit then j.(status := JobCancelled) else j
  }

  function CancelReservationJobs(jobs: seq<Job>, id: string): (out: seq<Job>)
    ensures |out| == |jobs|
    ensures forall i | 0 <= i < |jobs| :: out[i] == CancelIf(jobs[i], BelongsTo(jobs[i].payload, id))
  {
    if jobs == [] then []
    else
      var last := jobs[|jobs| - 1];
      CancelReservationJobs(jobs[..|jobs| - 1], id) + [CancelIf(last, BelongsTo(last.payload, id))]
  }

  function CancelCampaignJobs(jobs: seq<Job>, campaign: string): (out: seq<Job>)
    ensures |out| == |jobs|
    ensures forall i | 0 <= i < |jobs| :: out[i] == CancelIf(jobs[i], jobs[i].campaign == campaign)
  {
    if jobs == [] then []
    else
      var last := jobs[|jobs| - 1];
      CancelCampaignJobs(jobs[..|jobs| - 1], campaign) + [CancelIf(last, last.campaign == campaign)]
  }

  function CutOffRow(r: Reservation, campaign: string, found: set<string>): Reservation {
    if r.campaign != campaign then r
    else if r.status == ResSent then Expired(r, r.channel in found)
    else if r.Open() then r.(status := ResCancelled)
    else r
  }

  function CutOffRows(rs: seq<Reservation>, campaign: string, found: set<string>): (out: seq<Reservation>)
    ensures |out| == |rs|
    ensures forall i | 0 <= i < |rs| :: out[i] == CutOffRow(rs[i], campaign, found)
  {
    if rs == [] then []
    else CutOffRows(rs[..|rs| - 1], campaign, found) + [CutOffRow(rs[|rs| - 1], campaign, found)]
  }

  function CutOffCampaign(s: State, campaign: string, found: set<string>): State {
    s.(reservations := CutOffRows(s.reservations, campaign, found), jobs := CancelCampaignJobs(s.jobs, campaign))
  }

  // --------------------------------------------------------------------- job handlers

  /** "<resID>|<index>", cut at the last bar. */
  function SplitReplyPayload(p: string): Option<(string, int)> {
    var i := LastBar(p);
    if i < 0 then None
    else
      var idx := Atoi(p[i + 1..]);
      if idx.None? then None else Some((p[..i], idx.value))
  }

  function LastBar(p: string): (i: int)
    ensures -1 <= i < |p|
    ensures i >= 0 ==> p[i] == '|'
    ensures forall k | i < k < |p| :: p[k] != '|'
  {
    if p == "" then -1
    else if p[|p| - 1] == '|' then |p| - 1
    else LastBar(p[..|p| - 1])
  }

  function NewJob(kind: JobKind, of: Job, ad: string, runAt: Instant, payload: string): Job {
    Job(kind, JobPending, of.campaign, ad, of.channel, runAt, 0, payload)
  }

  /** The main message m is out: the row says so, keep-last ads follow it, and the row
      notes when the cycle's safety net will end it. */
  function AdRows(
    rs: seq<Reservation>, channel: string, i: nat, m: int, env: Env, end: Option<Instant>): seq<Reservation>
    requires i < |rs|
  {
    var shown := AfterPost(rs[i := MainPosted(rs[i], m)], channel, m, env.reposted);
    if end.Some? then shown[i := shown[i].(deleteAt := end)] else shown
  }

  /** The safety net and the first reply. */
  function AdJobs(job: Job, ad: Ad, cm: Campaign, now: Instant): seq<Job> {
    var at := NetAt(job, cm, now);
    (if at.Some? then [NewJob(DeletePost, job, "", at.value, job.payload)] else [])
    + if ad.replies == [] then [] else [ReplyJob(job, ad, now + Minutes(cm.intervalMinutes), job.payload, 0)]
  }

  function ReplyJob(of: Job, ad: Ad, at: Instant, id: string, idx: nat): Job {
    NewJob(SendReply, of, ad.id, at, Bar(id, Decimal(idx)))
  }

  function NetAt(job: Job, cm: Campaign, now: Instant): Option<Instant> {
    if cm.deleteAfterMinutes > 0 && job.payload != "" then Some(now + Minutes(cm.deleteAfterMinutes)) else None
  }

  function PostAd(s: State, job: Job, ad: Ad, cm: Campaign, m: int, env: Env): State {
    var i := IndexOf(s.reservations, job.payload);
    s.(reservations := if job.payload != "" && i < |s.reservations|
                       then AdRows(s.reservations, job.channel, i, m, env, NetAt(job, cm, env.now))
                       else AfterPost(s.reservations, job.channel, m, env.reposted),
       jobs := s.jobs + AdJobs(job, ad, cm, env.now))
  }

  function SendAdHandler(s: State, job: Job, env: Env): (State, bool) {
    if env.ad.None? || !env.channelFound then (s, true)
    else if env.campaign.None? then (s, false)
    else if env.copied.None? then (s, true)
    else (PostAd(s, job, env.ad.value, env.campaign.value, env.copied.value, env), false)
  }

  /** Reply idx is out as message m, in place of the one before; after the last one the
      row notes when the cycle ends. */
  function ReplyRows(
    rs: seq<Reservation>, channel: string, i: nat, idx: nat, m: int, env: Env, end: Option<Instant>): seq<Reservation>
    requires i < |rs|
  {
    var shown := AfterPost(rs[i := ReplyPosted(rs[i], m, idx)], channel, m, env.reposted);
    if end.Some? then shown[i := shown[i].(deleteAt := end)] else shown
  }

  function ReplyEnd(ad: Ad, idx: nat, now: Instant): Option<Instant>
    requires idx < |ad.replies|
  {
    if idx + 1 >= |ad.replies| then Some(now + Minutes(ad.replies[idx])) else None
  }

  function AfterReply(of: Job, ad: Ad, id: string, idx: nat, now: Instant): Job
    requires idx < |ad.replies|
  {
    var at := now + Minutes(ad.replies[idx]);
    if idx + 1 >= |ad.replies| then NewJob(DeletePost, of, "", at, id) else ReplyJob(of, ad, at, id, idx + 1)
  }

  function PostReply(s: State, job: Job, ad: Ad, i: nat, idx: nat, m: int, env: Env): State
    requires i < |s.reservations| && idx < |ad.replies|
  {
    s.(reservations := ReplyRows(s.reservations, job.channel, i, idx, m, env, ReplyEnd(ad, idx, env.now)),
       jobs := s.jobs + [AfterReply(job, ad, s.reservations[i].id, idx, env.now)])
  }

  function ClearReply(s: State, i: nat): State
    requires i < |s.reservations|
  {
    s.(reservations := s.reservations[i := ReplyDeleted(s.reservations[i])])
  }

  /** The reply before is gone even when the next one cannot be sent. */
  function Reply(s: State, job: Job, ad: Ad, i: nat, idx: nat, env: Env): (State, bool)
    requires i < |s.reservations| && idx < |ad.replies|
  {
    if env.copied.None? then (ClearReply(s, i), true)
    else (PostReply(ClearReply(s, i), job, ad, i, idx, env.copied.value, env), false)
  }

  /** A negative index, which would crash the program, is never written by it. */
  function SendReplyHandler(s: State, job: Job, env: Env): (State, bool) {
    var split := SplitReplyPayload(job.payload);
    if split.None? then (s, false)
    else
      var (id, idx) := split.value;
      var i := IndexOf(s.reservations, id);
      if i >= |s.reservations| || |s.reservations[i].live| == 0 then (s, false)
      else if env.ad.None? || idx < 0 || idx >= |env.ad.value.replies| then (s, false)
      else if !env.channelFound then (s, true)
      else Reply(s, job, env.ad.value, i, idx, env)
  }

  function EndCycle(s: State, id: string, found: bool): State {
    var i := IndexOf(s.reservations, id);
    if i >= |s.reservations| then s
    else s.(reservations := s.reservations[i := Expired(s.reservations[i], found)],
            jobs := CancelReservationJobs(s.jobs, id))
  }

  /** The handler's effect and whether it returned an error. */
  function Handle(s: State, job: Job, env: Env): (State, bool) {
    match job.kind
    case SendAd => SendAdHandler(s, job, env)
    case SendReply => SendReplyHandler(s, job, env)
    case DeletePost => (if job.payload == "" then s else EndCycle(s, job.payload, env.channelFound), false)
    case Reminder => (s, env.reminderFails)
  }

  function MarkJobDone(s: State, j: nat): State
    requires j < |s.jobs|
  {
    s.(jobs := s.jobs[j := s.jobs[j].(status := JobDone)])
  }

  /** A job that ran: done, to be retried, or failed for good and its reservation
      with it. The attempts compared are those before this start. */
  function Conclude(s: State, j: nat, err: bool, now: Instant): State
    requires j < |s.jobs|
  {
    var job := s.jobs[j];
    var before := job.attempts - 1;
    if !err then MarkJobDone(s, j)
    else if before < MAX_ATTEMPTS then
      s.(jobs := s.jobs[j := job.(status := JobPending, runAt := now + Minutes((before + 1) * 5))])
    else
      var i := IndexOf(s.reservations, job.payload);
      s.(jobs := s.jobs[j := job.(status := JobFailed)],
         reservations := if job.payload != "" && i < |s.reservations|
                         then s.reservations[i := s.reservations[i].(status := ResFailed)] else s.reservations)
  }

  function RunJobStep(s: State, j: nat, env: Env): State {
    if j >= |s.jobs| || s.jobs[j].status != JobRunning then s
    else
      var (s', err) := Handle(s, s.jobs[j], env);
      if j < |s'.jobs| then Conclude(s', j, err, env.now) else s'
  }

  // -------------------------------------------------------------------------- planner

  predicate HasOpen(rs: seq<Reservation>, campaign: string, channel: string) {
    exists i | 0 <= i < |rs| :: rs[i].For(campaign, channel) && rs[i].Open()
  }

  /** The latest ScheduledAt of the pair, whatever became of the reservation. */
  function LastReservationAt(rs: seq<Reservation>, campaign: string, channel: string): Option<Instant> {
    if rs == [] then None
    else
      var before := LastReservationAt(rs[..|rs| - 1], campaign, channel);
      var r := rs[|rs| - 1];
      if !r.For(campaign, channel) then before
      else if before.Some? && before.value >= r.scheduledAt then before
      else Some(r.scheduledAt)
  }

  function CycleGap(cm: Campaign, ad: Ad): int {
    Minutes(cm.intervalMinutes * (|ad.replies| + 1))
  }

  function NextDue(rs: seq<Reservation>, cm: Campaign, ad: Ad, channel: string, windowStart: Instant): Instant {
    var last := LastReservationAt(rs, cm.id, channel);
    if last.Some? then last.value + CycleGap(cm, ad) else windowStart
  }

  /** The pass makes a reservation for this channel now. */
  predicate MayReserve(
    rs: seq<Reservation>, cm: Campaign, ad: Ad, channel: string, windowStart: Instant, now: Instant, lead: int)
  {
    var due := NextDue(rs, cm, ad, channel, windowStart);
    && !HasOpen(rs, cm.id, channel)
    && InDailyWindow(due, cm.window)
    && (if lead > 0 then now >= due - Minutes(lead) else now >= due)
  }

  function RemindAt(due: Instant, now: Instant, lead: int): Instant {
    if due - Minutes(lead) < now then now else due - Minutes(lead)
  }

  /** The new pending row, its send job and, with a lead, its reminder. */
  function Reserve(s: State, r: Reservation, now: Instant, lead: int): State {
    var send := Job(SendAd, JobPending, r.campaign, r.ad, r.channel, r.scheduledAt, 0, r.id);
    var remind := Job(Reminder, JobPending, r.campaign, r.ad, r.channel, RemindAt(r.scheduledAt, now, lead), 0, r.id);
    s.(reservations := s.reservations + [r],
       jobs := if lead > 0 then s.jobs + [send] + [remind] else s.jobs + [send])
  }

  function NewReservation(id: Uuid, campaign: string, ad: string, channel: string, due: Instant): Reservation {
    Reservation(id, campaign, ad, channel, ResPending, due, [], [], 0, None, {})
  }

  function PlanChannel(
    s: State, cm: Campaign, ad: Ad, channel: string, windowStart: Instant, now: Instant, lead: int,
    newId: nat -> Uuid): State
  {
    var id := newId(|s.reservations|);
    if !MayReserve(s.reservations, cm, ad, channel, windowStart, now, lead)
       || IndexOf(s.reservations, id) < |s.reservations| then s
    else
      var due := NextDue(s.reservations, cm, ad, channel, windowStart);
      Reserve(s, NewReservation(id, cm.id, ad.id, channel, due), now, lead)
  }

  function PlanChannels(
    s: State, cm: Campaign, ad: Ad, channels: seq<string>, windowStart: Instant, now: Instant, lead: int,
    newId: nat -> Uuid): State
  {
    if channels == [] then s
    else
      PlanChannel(PlanChannels(s, cm, ad, channels[..|channels| - 1], windowStart, now, lead, newId),
                  cm, ad, channels[|channels| - 1], windowStart, now, lead, newId)
  }

  /** The ad the rotation shows now. */
  function CurrentAd(cm: Campaign, now: Instant): Ad
    requires cm.ads != []
  {
    var start := CurrentWindowStart(now, cm.window);
    cm.ads[RotationIndex(ElapsedMinutes(now, start), cm.rotationMinutes, |cm.ads|)]
  }

  function PlanCampaign(s: State, cm: Campaign, now: Instant, lead: int, newId: nat -> Uuid): State {
    if cm.endAt.Some? && now > cm.endAt.value then s
    else if cm.intervalMinutes < 1 then s
    else if !InDailyWindow(now, cm.window) then CutOffCampaign(s, cm.id, cm.found)
    else if cm.ads == [] then s
    else PlanChannels(s, cm, CurrentAd(cm, now), cm.channels, CurrentWindowStart(now, cm.window), now, lead, newId)
  }

  function PlanCampaigns(s: State, campaigns: seq<Campaign>, now: Instant, lead: int, newId: nat -> Uuid): State {
    if campaigns == [] then s
    else
      PlanCampaign(PlanCampaigns(s, campaigns[..|campaigns| - 1], now, lead, newId),
                   campaigns[|campaigns| - 1], now, lead, newId)
  }

  // ----------------------------------------------------------------------------- runs

  /** Pending jobs whose time has come, at most 50 (in row order here). */
  function DueJobs(jobs: seq<Job>, now: Instant): seq<nat> {
    if jobs == [] then []
    else
      var n := |jobs| - 1;
      var before := DueJobs(jobs[..n], now);
      if |before| < 50 && jobs[n].status == JobPending && jobs[n].runAt <= now then before + [n] else before
  }

  /** Starting asks for no status: a job cancelled since it was fetched runs anyway. */
  function StartJob(s: State): State {
    if s.fetched == [] then s
    else
      var j := s.fetched[0];
      if j >= |s.jobs| then s.(fetched := s.fetched[1..])
      else s.(fetched := s.fetched[1..],
              jobs := s.jobs[j := s.jobs[j].(status := JobRunning, attempts := s.jobs[j].attempts + 1)])
  }

  function Step(s: State, e: Event): State {
    match e
    case Plan(campaigns, now, lead, newId) => PlanCampaigns(s, campaigns, now, lead, newId)
    case Fetch(now) => if s.fetched == [] then s.(fetched := DueJobs(s.jobs, now)) else s
    case StartNext => StartJob(s)
    case RunJob(j, env) => RunJobStep(s, j, env)
  }

  function RunFrom(s: State, events: seq<Event>): State {
    if events == [] then s else Step(RunFrom(s, events[..|events| - 1]), events[|events| - 1])
  }

  const EMPTY: State := State([], [], [])
}
