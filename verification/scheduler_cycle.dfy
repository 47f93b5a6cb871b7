/** A cycle left alone: the main post, every reply in its turn and for its own time, and
    the end. */
module SchedulerCycle {
  import opened Text
  import opened Schedule
  import opened Scheduler
  import opened SchedulerLife
  import opened SchedulerCutOff
  import opened SchedulerPunctual

  // ----------------------------------------------------------------- what a post schedules

  /** A fresh job of this kind, for the same campaign and channel as `of`. */
  predicate Scheduled(job: Job, of: Job, kind: JobKind, payload: string, at: Instant) {
    && job.kind == kind && job.status == JobPending && job.attempts == 0
    && job.campaign == of.campaign && job.channel == of.channel && job.payload == payload && job.runAt == at
  }

  /** The row shows the main message m alone. */
  predicate MainShown(r: Reservation, q: Reservation, m: int) {
    && q.id == r.id && q.status == ResSent && q.live == [m] && q.replyIndex == -1
    && q.posted == [m] && q.shown == r.shown + {m}
  }

  function Nets(cm: Campaign): nat {
    if cm.deleteAfterMinutes > 0 then 1 else 0
  }

  /** The main message goes out for row i: the row shows it alone; the safety net and the
      first reply, where there are such, are due at their times, and nothing else is. */
  lemma PostSchedules(s: State, j: nat, i: nat, ad: Ad, cm: Campaign, m: int, env: Env)
    requires Life(s) && j < |s.jobs| && s.jobs[j].status == JobRunning && i < |s.reservations|
    requires Sends(s.jobs[j], s.reservations[i])
    requires env.ad == Some(ad) && env.campaign == Some(cm) && env.channelFound && env.copied == Some(m)
    ensures PostDone(s, Step(s, RunJob(j, env)), j, i, ad, cm, m, env.now)
  {
    assert JobOk(s.reservations, s.jobs[j]);
    assert IndexOf(s.reservations, s.jobs[j].payload) == i;
    PostRuns(s, j, i, ad, cm, m, env);
  }

  lemma PostRuns(s: State, j: nat, i: nat, ad: Ad, cm: Campaign, m: int, env: Env)
    requires j < |s.jobs| && s.jobs[j].status == JobRunning && i < |s.reservations| && s.jobs[j].payload != ""
    requires Sends(s.jobs[j], s.reservations[i]) && IndexOf(s.reservations, s.jobs[j].payload) == i
    requires env.ad == Some(ad) && env.campaign == Some(cm) && env.channelFound && env.copied == Some(m)
    ensures PostDone(s, RunJobStep(s, j, env), j, i, ad, cm, m, env.now)
  {
    var job := s.jobs[j];
    PostedRow(s.reservations, job, i, m, env, NetAt(job, cm, env.now));
    PostedJobs(s.jobs, job, ad, cm, env.now);
    assert Handle(s, job, env) == (PostAd(s, job, ad, cm, m, env), false);
  }

  /** From s to t the send job j of row i has run. */
  predicate PostDone(s: State, t: State, j: nat, i: nat, ad: Ad, cm: Campaign, m: int, now: Instant)
    requires j < |s.jobs| && i < |s.reservations|
  {
    && SameIds(s.reservations, t.reservations) && t.fetched == s.fetched
    && MainShown(s.reservations[i], t.reservations[i], m)
    && (cm.deleteAfterMinutes > 0 ==> t.reservations[i].deleteAt == Some(now + Minutes(cm.deleteAfterMinutes)))
    && PostJobs(s.jobs, t.jobs, s.jobs[j], ad, cm, now)
    && t.jobs[j] == s.jobs[j].(status := JobDone)
    && forall k | 0 <= k < |s.jobs| && k != j :: t.jobs[k] == s.jobs[k]
  }

  /** Of new jobs there are the safety net, if wanted, and the first reply, if any. */
  predicate PostJobs(jobs: seq<Job>, jobs': seq<Job>, of: Job, ad: Ad, cm: Campaign, now: Instant) {
    && |jobs'| == |jobs| + Nets(cm) + (if ad.replies == [] then 0 else 1)
    && (cm.deleteAfterMinutes > 0 ==>
          Scheduled(jobs'[|jobs|], of, DeletePost, of.payload, now + Minutes(cm.deleteAfterMinutes)))
    && (ad.replies != [] ==>
          var next := jobs'[|jobs'| - 1];
          next.ad == ad.id && Scheduled(next, of, SendReply, Bar(of.payload, "0"), now + Minutes(cm.intervalMinutes)))
  }

  lemma PostedJobs(jobs: seq<Job>, job: Job, ad: Ad, cm: Campaign, now: Instant)
    requires job.payload != ""
    ensures PostJobs(jobs, jobs + AdJobs(job, ad, cm, now), job, ad, cm, now)
  {
    assert Decimal(0) == "0";
  }

  lemma PostedRow(rs: seq<Reservation>, job: Job, i: nat, m: int, env: Env, end: Option<Instant>)
    requires i < |rs|
    ensures var q := AdRows(rs, job.channel, i, m, env, end)[i];
      && SameIds(rs, AdRows(rs, job.channel, i, m, env, end))
      && MainShown(rs[i], q, m) && (end.Some? ==> q.deleteAt == end)
  {}

  // --------------------------------------------------------------------------- one turn

  /** The last job waits, due at `at`; every other pending job is due after the horizon,
      and a tick has nothing in hand. */
  predicate OnlyLastIsDue(s: State, at: Instant, horizon: Instant) {
    && s.jobs != [] && s.fetched == [] && at <= horizon
    && s.jobs[|s.jobs| - 1].status == JobPending && s.jobs[|s.jobs| - 1].runAt == at
    && s.jobs[|s.jobs| - 1].attempts == 0
    && forall k | 0 <= k < |s.jobs| - 1 && s.jobs[k].status == JobPending :: s.jobs[k].runAt > horizon
  }

  lemma {:induction false} NothingDue(jobs: seq<Job>, now: Instant)
    requires forall k | 0 <= k < |jobs| && jobs[k].status == JobPending :: jobs[k].runAt > now
    ensures DueJobs(jobs, now) == []
  {
    if jobs != [] {
      NothingDue(jobs[..|jobs| - 1], now);
    }
  }

  /** A tick at the job's time: it is fetched, started and run. */
  function Turn(k: nat, env: Env): seq<Event> {
    [Fetch(env.now), StartNext, RunJob(k, env)]
  }

  /** From s to t a tick at that time has fetched, started and run job k. */
  predicate OneTick(s: State, t: State, k: nat, env: Env) {
    t == RunFrom(s, Turn(k, env))
  }

  function TakenUp(s: State): State
    requires s.jobs != []
  {
    var k := |s.jobs| - 1;
    s.(jobs := s.jobs[k := s.jobs[k].(status := JobRunning, attempts := 1)])
  }

  lemma OnlyLastFetched(jobs: seq<Job>, now: Instant)
    requires jobs != [] && jobs[|jobs| - 1].status == JobPending && jobs[|jobs| - 1].runAt <= now
    requires forall k | 0 <= k < |jobs| - 1 && jobs[k].status == JobPending :: jobs[k].runAt > now
    ensures DueJobs(jobs, now) == [|jobs| - 1]
  {
    NothingDue(jobs[..|jobs| - 1], now);
  }

  lemma TurnStarts(s: State, now: Instant, horizon: Instant)
    requires OnlyLastIsDue(s, now, horizon)
    ensures Step(Step(s, Fetch(now)), StartNext) == TakenUp(s)
  {
    OnlyLastFetched(s.jobs, now);
  }

  lemma TurnRuns(s: State, env: Env, horizon: Instant)
    requires OnlyLastIsDue(s, env.now, horizon)
    ensures RunFrom(s, Turn(|s.jobs| - 1, env)) == RunJobStep(TakenUp(s), |s.jobs| - 1, env)
  {
    ThreeSteps(s, Fetch(env.now), StartNext, RunJob(|s.jobs| - 1, env));
    TurnStarts(s, env.now, horizon);
  }

  /** What the outside answers a turn of this ad, with message m as the copy. */
  predicate Answers(env: Env, ad: Ad, m: int, at: Instant) {
    env.now == at && env.ad == Some(ad) && env.channelFound && env.copied == Some(m)
  }

  /** The job that comes after reply idx of this ad, for row r. */
  predicate Follows(job: Job, of: Job, r: Reservation, ad: Ad, idx: nat, at: Instant)
    requires idx < |ad.replies|
  {
    if idx + 1 < |ad.replies|
    then job.ad == of.ad && Scheduled(job, of, SendReply, Bar(r.id, Decimal(idx + 1)), at + Minutes(ad.replies[idx]))
    else Scheduled(job, of, DeletePost, r.id, at + Minutes(ad.replies[idx]))
  }

  /** The reply's handler gets through. */
  lemma ReplyIsHandled(s: State, job: Job, i: nat, ad: Ad, idx: nat, m: int, env: Env)
    requires i < |s.reservations| && IndexOf(s.reservations, s.reservations[i].id) == i && s.reservations[i].live != []
    requires job.kind == SendReply && job.payload == Bar(s.reservations[i].id, Decimal(idx))
    requires idx < |ad.replies| <= INT64_MAX && Answers(env, ad, m, env.now)
    ensures Handle(s, job, env) == (PostReply(ClearReply(s, i), job, ad, i, idx, m, env), false)
  {
    SplitReadsBack(s.reservations[i].id, idx);
  }

  lemma ReplyRuns(s: State, k: nat, i: nat, ad: Ad, idx: nat, m: int, env: Env)
    requires k < |s.jobs| && s.jobs[k].status == JobRunning && s.jobs[k].kind == SendReply && s.jobs[k].ad == ad.id
    requires i < |s.reservations| && IndexOf(s.reservations, s.reservations[i].id) == i
    requires s.jobs[k].payload == Bar(s.reservations[i].id, Decimal(idx)) && s.reservations[i].live != []
    requires idx < |ad.replies| <= INT64_MAX && Answers(env, ad, m, env.now)
    ensures var t, r := RunJobStep(s, k, env), s.reservations[i];
      && t.reservations == ReplyRows(ClearReply(s, i).reservations, s.jobs[k].channel, i, idx, m, env,
                                     ReplyEnd(ad, idx, env.now))
      && t.fetched == s.fetched && |t.jobs| == |s.jobs| + 1
      && t.jobs[k].status == JobDone && Follows(t.jobs[|s.jobs|], s.jobs[k], r, ad, idx, env.now)
      && forall n | 0 <= n < |s.jobs| && n != k :: t.jobs[n] == s.jobs[n]
  {
    ReplyIsHandled(s, s.jobs[k], i, ad, idx, m, env);
  }

  /** The row shows its main message and the reply m; the reply before is gone. */
  predicate ReplyShown(r: Reservation, q: Reservation, m: int, idx: nat)
    requires r.live != []
  {
    && q.id == r.id && q.status == ResSent && q.live == [r.live[0], m] && q.replyIndex == idx
    && q.shown == (if |r.live| > 1 then r.shown - {r.live[1]} else r.shown) + {m}
  }

  lemma ReplyShows(s: State, channel: string, i: nat, ad: Ad, idx: nat, m: int, env: Env)
    requires i < |s.reservations| && idx < |ad.replies|
    requires s.reservations[i].live != [] && s.reservations[i].live[0] != 0 && s.reservations[i].status == ResSent
    ensures var q := ReplyRows(ClearReply(s, i).reservations, channel, i, idx, m, env, ReplyEnd(ad, idx, env.now))[i];
      && ReplyShown(s.reservations[i], q, m, idx)
      && (idx + 1 == |ad.replies| ==> q.deleteAt == Some(env.now + Minutes(ad.replies[idx])))
  {}

  predicate SameIds(rs: seq<Reservation>, qs: seq<Reservation>) {
    |qs| == |rs| && forall n | 0 <= n < |rs| :: qs[n].id == rs[n].id
  }

  lemma SameIdsSameIndex(rs: seq<Reservation>, qs: seq<Reservation>, id: string)
    requires SameIds(rs, qs)
    ensures IndexOf(qs, id) == IndexOf(rs, id)
  {}

  lemma RepliesKeepIds(rs: seq<Reservation>, channel: string, i: nat, idx: nat, m: int, env: Env, end: Option<Instant>)
    requires i < |rs|
    ensures SameIds(rs, ReplyRows(rs, channel, i, idx, m, env, end))
  {}

  /** From s to t the job k of reply idx has run: the row shows the reply, the job is done
      and the next one is due. */
  predicate ReplyDone(s: State, t: State, k: nat, i: nat, ad: Ad, idx: nat, m: int, now: Instant)
    requires k < |s.jobs| && i < |s.reservations| && s.reservations[i].live != [] && idx < |ad.replies|
  {
    && SameIds(s.reservations, t.reservations) && t.fetched == s.fetched && |t.jobs| == |s.jobs| + 1
    && ReplyShown(s.reservations[i], t.reservations[i], m, idx)
    && (idx + 1 == |ad.replies| ==> t.reservations[i].deleteAt == Some(now + Minutes(ad.replies[idx])))
    && t.jobs[k].status == JobDone && Follows(t.jobs[|s.jobs|], s.jobs[k], s.reservations[i], ad, idx, now)
    && forall n | 0 <= n < |s.jobs| && n != k :: t.jobs[n] == s.jobs[n]
  }

  lemma ReplyJobRuns(s: State, k: nat, i: nat, ad: Ad, idx: nat, m: int, env: Env)
    requires k < |s.jobs| && s.jobs[k].status == JobRunning && s.jobs[k].kind == SendReply && s.jobs[k].ad == ad.id
    requires i < |s.reservations| && IndexOf(s.reservations, s.reservations[i].id) == i
    requires s.jobs[k].payload == Bar(s.reservations[i].id, Decimal(idx))
    requires s.reservations[i].live != [] && s.reservations[i].live[0] != 0 && s.reservations[i].status == ResSent
    requires idx < |ad.replies| <= INT64_MAX && Answers(env, ad, m, env.now)
    ensures ReplyDone(s, RunJobStep(s, k, env), k, i, ad, idx, m, env.now)
  {
    ReplyRuns(s, k, i, ad, idx, m, env);
    ReplyShows(s, s.jobs[k].channel, i, ad, idx, m, env);
    RepliesKeepIds(ClearReply(s, i).reservations, s.jobs[k].channel, i, idx, m, env, ReplyEnd(ad, idx, env.now));
  }

  lemma TakenUpAlike(s: State, t: State, i: nat, ad: Ad, idx: nat, m: int, now: Instant)
    requires s.jobs != [] && i < |s.reservations| && s.reservations[i].live != [] && idx < |ad.replies|
    requires ReplyDone(TakenUp(s), t, |s.jobs| - 1, i, ad, idx, m, now)
    ensures ReplyDone(s, t, |s.jobs| - 1, i, ad, idx, m, now)
  {}

  /** A reply takes the place of the one before and stays for its own time: then the next
      one is due, or after the last the end. */
  lemma ReplyGoesOut(s: State, t: State, i: nat, ad: Ad, idx: nat, m: int, env: Env, horizon: Instant)
    requires OnlyLastIsDue(s, env.now, horizon) && i < |s.reservations|
    requires IndexOf(s.reservations, s.reservations[i].id) == i
    requires var job := s.jobs[|s.jobs| - 1];
      job.kind == SendReply && job.ad == ad.id && job.payload == Bar(s.reservations[i].id, Decimal(idx))
    requires s.reservations[i].status == ResSent && s.reservations[i].live != [] && s.reservations[i].live[0] != 0
    requires idx < |ad.replies| <= INT64_MAX && Answers(env, ad, m, env.now)
    requires OneTick(s, t, |s.jobs| - 1, env)
    ensures ReplyDone(s, t, |s.jobs| - 1, i, ad, idx, m, env.now)
  {
    TurnRuns(s, env, horizon);
    TakenUpReplies(s, TakenUp(s), t, i, ad, idx, m, env);
  }

  lemma TakenUpReplies(s: State, u: State, t: State, i: nat, ad: Ad, idx: nat, m: int, env: Env)
    requires s.jobs != [] && i < |s.reservations| && IndexOf(s.reservations, s.reservations[i].id) == i
    requires var job := s.jobs[|s.jobs| - 1];
      job.kind == SendReply && job.ad == ad.id && job.payload == Bar(s.reservations[i].id, Decimal(idx))
    requires s.reservations[i].status == ResSent && s.reservations[i].live != [] && s.reservations[i].live[0] != 0
    requires idx < |ad.replies| <= INT64_MAX && Answers(env, ad, m, env.now)
    requires u == TakenUp(s) && t == RunJobStep(u, |s.jobs| - 1, env)
    ensures ReplyDone(s, t, |s.jobs| - 1, i, ad, idx, m, env.now)
  {
    ReplyJobRuns(u, |s.jobs| - 1, i, ad, idx, m, env);
    TakenUpAlike(s, t, i, ad, idx, m, env.now);
  }

  // ------------------------------------------------------------------------- the cycle

  /** When reply x is due, and after the last one the end: each reply stays for its own
      minutes. */
  function DueAt(ad: Ad, first: Instant, x: nat): Instant
    requires x <= |ad.replies|
  {
    if x == 0 then first else DueAt(ad, first, x - 1) + Minutes(ad.replies[x - 1])
  }

  /** The messages of the cycle before reply x. */
  function Showing(main: int, replies: nat -> int, x: nat): seq<int> {
    if x == 0 then [main] else [main, replies(x - 1)]
  }

  /** The cycle of row i has come to reply x: the row shows the main message and the
      reply before, nothing else of it is in the channel, and the one job that is due
      before the horizon is that of reply x, or after the last one the end. */
  predicate Ready(
    s: State, i: nat, id: Uuid, ad: Ad, main: int, replies: nat -> int, x: nat, at: Instant, horizon: Instant) {
    && OnlyLastIsDue(s, at, horizon) && IndexOf(s.reservations, id) == i < |s.reservations| && x <= |ad.replies|
    && RowReady(s.reservations[i], id, Showing(main, replies, x), x as int - 1)
    && JobReady(s.jobs[|s.jobs| - 1], id, ad, x)
  }

  predicate RowReady(r: Reservation, id: Uuid, live: seq<int>, index: int) {
    r.id == id && r.status == ResSent && r.live == live && r.replyIndex == index && r.shown == Ids(live)
  }

  predicate JobReady(job: Job, id: Uuid, ad: Ad, x: nat) {
    if x < |ad.replies| then job.kind == SendReply && job.ad == ad.id && job.payload == Bar(id, Decimal(x))
    else job.kind == DeletePost && job.payload == id
  }

  /** The outside answers reply y at its time, with a message that is not the main one;
      its own minutes end before the horizon. */
  predicate AnswersTurn(env: Env, ad: Ad, main: int, m: int, first: Instant, y: nat, horizon: Instant)
    requires y < |ad.replies|
  {
    Answers(env, ad, m, DueAt(ad, first, y)) && m != main && DueAt(ad, first, y + 1) <= horizon
  }

  predicate AnswersAll(
    envs: nat -> Env, ad: Ad, main: int, replies: nat -> int, first: Instant, x: nat, horizon: Instant)
    requires x <= |ad.replies|
  {
    forall y: nat | y < x :: AnswersTurn(envs(y), ad, main, replies(y), first, y, horizon)
  }

  lemma ShownAfter(r: Reservation, q: Reservation, main: int, replies: nat -> int, x: nat, id: Uuid)
    requires RowReady(r, id, Showing(main, replies, x), x as int - 1) && ReplyShown(r, q, replies(x), x)
    requires x > 0 ==> replies(x - 1) != main
    ensures RowReady(q, id, Showing(main, replies, x + 1), x)
  {
    if x > 0 {
      assert r.shown == {main, replies(x - 1)};
    } else {
      assert r.shown == {main};
    }
    assert Ids(q.live) == {main, replies(x)};
  }

  lemma FollowsReady(job: Job, of: Job, r: Reservation, ad: Ad, x: nat, at: Instant)
    requires x < |ad.replies| && JobReady(of, r.id, ad, x) && Follows(job, of, r, ad, x, at)
    ensures JobReady(job, r.id, ad, x + 1)
  {}

  lemma DueNext(s: State, t: State, at: Instant, next: Instant, horizon: Instant)
    requires OnlyLastIsDue(s, at, horizon) && t.fetched == [] && |t.jobs| == |s.jobs| + 1 && next <= horizon
    requires t.jobs[|s.jobs| - 1].status == JobDone && forall k | 0 <= k < |s.jobs| - 1 :: t.jobs[k] == s.jobs[k]
    requires t.jobs[|s.jobs|].status == JobPending && t.jobs[|s.jobs|].runAt == next && t.jobs[|s.jobs|].attempts == 0
    ensures OnlyLastIsDue(t, next, horizon)
  {}

  lemma OneMoreReply(
    s: State, t: State, i: nat, id: Uuid, ad: Ad, main: int, replies: nat -> int, x: nat, at: Instant, next: Instant,
    horizon: Instant)
    requires Ready(s, i, id, ad, main, replies, x, at, horizon) && x < |ad.replies|
    requires ReplyDone(s, t, |s.jobs| - 1, i, ad, x, replies(x), at)
    requires next == at + Minutes(ad.replies[x]) <= horizon
    requires x > 0 ==> replies(x - 1) != main
    ensures Ready(t, i, id, ad, main, replies, x + 1, next, horizon) && |t.jobs| == |s.jobs| + 1
  {
    FollowsReady(t.jobs[|s.jobs|], s.jobs[|s.jobs| - 1], s.reservations[i], ad, x, at);
    DueNext(s, t, at, next, horizon);
    ShownAfter(s.reservations[i], t.reservations[i], main, replies, x, id);
    SameIdsSameIndex(s.reservations, t.reservations, id);
  }

  /** A sequence of states of which each is one tick after the one before. */
  ghost predicate Ticks(states: nat -> State, base: nat, envs: nat -> Env, n: nat) {
    forall x: nat {:trigger envs(x)} | x < n :: OneTick(states(x), states(x + 1), base + x, envs(x))
  }

  /** One tick takes a state that is ready for reply x to one that is ready for the next. */
  lemma TickReady(
    s: State, t: State, i: nat, id: Uuid, ad: Ad, main: int, replies: nat -> int, env: Env, x: nat, first: Instant,
    horizon: Instant, k: nat)
    requires x < |ad.replies| <= INT64_MAX && main != 0 && |s.jobs| == k + 1 && OneTick(s, t, k, env)
    requires Ready(s, i, id, ad, main, replies, x, DueAt(ad, first, x), horizon)
    requires AnswersTurn(env, ad, main, replies(x), first, x, horizon)
    requires x > 0 ==> replies(x - 1) != main
    ensures Ready(t, i, id, ad, main, replies, x + 1, DueAt(ad, first, x + 1), horizon) && |t.jobs| == k + 2
  {
    ReplyGoesOut(s, t, i, ad, x, replies(x), env, horizon);
    OneMoreReply(s, t, i, id, ad, main, replies, x, env.now, DueAt(ad, first, x + 1), horizon);
  }

  predicate ReadyAt(
    states: nat -> State, i: nat, id: Uuid, ad: Ad, main: int, replies: nat -> int, base: nat, first: Instant,
    horizon: Instant, x: nat)
    requires x <= |ad.replies|
  {
    |states(x).jobs| == base + x + 1 && Ready(states(x), i, id, ad, main, replies, x, DueAt(ad, first, x), horizon)
  }

  lemma Advances(
    states: nat -> State, i: nat, id: Uuid, ad: Ad, main: int, replies: nat -> int, envs: nat -> Env, base: nat,
    first: Instant, horizon: Instant, n: nat, x: nat)
    requires x < n <= |ad.replies| <= INT64_MAX && main != 0 && Ticks(states, base, envs, n)
    requires AnswersAll(envs, ad, main, replies, first, n, horizon)
    requires ReadyAt(states, i, id, ad, main, replies, base, first, horizon, x)
    ensures ReadyAt(states, i, id, ad, main, replies, base, first, horizon, x + 1)
  {
    assert AnswersTurn(envs(x), ad, main, replies(x), first, x, horizon);
    assert x > 0 ==> AnswersTurn(envs(x - 1), ad, main, replies(x - 1), first, x - 1, horizon);
    TickReady(states(x), states(x + 1), i, id, ad, main, replies, envs(x), x, first, horizon, base + x);
  }

  lemma {:induction false} Climb(holds: nat -> bool, n: nat)
    requires holds(0) && forall x: nat | x < n && holds(x) :: holds(x + 1)
    ensures forall x: nat | x <= n :: holds(x)
  {
    if n > 0 {
      Climb(holds, n - 1);
      assert holds(n - 1) && holds(n - 1 + 1);
    }
  }

  /** What happens to a cycle left alone, with nothing else due before the horizon: tick by
      tick, reply after reply takes the place of the one before, each for its own minutes;
      then the end is due. */
  lemma RepliesGoOut(
    states: nat -> State, i: nat, id: Uuid, ad: Ad, main: int, replies: nat -> int, envs: nat -> Env, base: nat,
    first: Instant, horizon: Instant)
    requires |ad.replies| <= INT64_MAX && main != 0 && Ticks(states, base, envs, |ad.replies|)
    requires ReadyAt(states, i, id, ad, main, replies, base, first, horizon, 0)
    requires AnswersAll(envs, ad, main, replies, first, |ad.replies|, horizon)
    ensures forall x: nat | x <= |ad.replies| :: ReadyAt(states, i, id, ad, main, replies, base, first, horizon, x)
  {
    var n := |ad.replies|;
    var holds := (x: nat) => x <= n && ReadyAt(states, i, id, ad, main, replies, base, first, horizon, x);
    forall x: nat | x < n && holds(x)
      ensures holds(x + 1)
    {
      Advances(states, i, id, ad, main, replies, envs, base, first, horizon, n, x);
    }
    Climb(holds, n);
    forall x: nat | x <= n
      ensures ReadyAt(states, i, id, ad, main, replies, base, first, horizon, x)
    {
      assert holds(x);
    }
  }

  /** The cycle of the row is over: nothing of it is in the channel, and no pending job
      is its own. */
  predicate Over(s: State, i: nat) {
    && i < |s.reservations|
    && s.reservations[i].status == ResExpired && s.reservations[i].live == [] && s.reservations[i].shown == {}
    && forall k | 0 <= k < |s.jobs| && s.jobs[k].status == JobPending ::
         !BelongsTo(s.jobs[k].payload, s.reservations[i].id)
  }

  /** And the tick at the end deletes the messages and expires the reservation. */
  lemma CycleEnds(
    s: State, t: State, i: nat, id: Uuid, ad: Ad, main: int, replies: nat -> int, env: Env, horizon: Instant)
    requires Ready(s, i, id, ad, main, replies, |ad.replies|, env.now, horizon) && env.channelFound
    requires OneTick(s, t, |s.jobs| - 1, env)
    ensures Over(t, i)
  {
    TurnRuns(s, env, horizon);
    EndJobRuns(TakenUp(s), |s.jobs| - 1, i, env);
  }

  lemma EndJobRuns(s: State, k: nat, i: nat, env: Env)
    requires k < |s.jobs| && s.jobs[k].status == JobRunning && s.jobs[k].kind == DeletePost
    requires i < |s.reservations| && s.jobs[k].payload == s.reservations[i].id != "" && env.channelFound
    requires IndexOf(s.reservations, s.reservations[i].id) == i
    requires s.reservations[i].shown == Ids(s.reservations[i].live)
    ensures Over(RunJobStep(s, k, env), i)
  {
    var t := EndCycle(s, s.jobs[k].payload, true);
    assert t.reservations[i] == Expired(s.reservations[i], true);
    assert RunJobStep(s, k, env) == MarkJobDone(t, k);
  }

  lemma FirstDue(s: State, t: State, j: nat, i: nat, ad: Ad, cm: Campaign, m: int, now: Instant, horizon: Instant)
    requires j < |s.jobs| && i < |s.reservations| && PostDone(s, t, j, i, ad, cm, m, now) && s.fetched == []
    requires forall k | 0 <= k < |s.jobs| && s.jobs[k].status == JobPending :: s.jobs[k].runAt > horizon
    requires ad.replies != [] && now + Minutes(cm.intervalMinutes) <= horizon
    requires cm.deleteAfterMinutes > 0 ==> now + Minutes(cm.deleteAfterMinutes) > horizon
    ensures OnlyLastIsDue(t, now + Minutes(cm.intervalMinutes), horizon)
  {}

  /** The main post of an ad with replies begins such a cycle: the first reply is due one
      interval later. */
  lemma CycleStarts(s: State, j: nat, i: nat, ad: Ad, cm: Campaign, m: int, replies: nat -> int, env: Env,
                    horizon: Instant)
    returns (t: State)
    requires Life(s) && j < |s.jobs| && s.jobs[j].status == JobRunning && i < |s.reservations|
    requires Sends(s.jobs[j], s.reservations[i]) && s.fetched == []
    requires env.ad == Some(ad) && env.campaign == Some(cm) && env.channelFound && env.copied == Some(m)
    requires forall k | 0 <= k < |s.jobs| && s.jobs[k].status == JobPending :: s.jobs[k].runAt > horizon
    requires ad.replies != [] && env.now + Minutes(cm.intervalMinutes) <= horizon
    requires cm.deleteAfterMinutes > 0 ==> env.now + Minutes(cm.deleteAfterMinutes) > horizon
    ensures t == Step(s, RunJob(j, env)) && |t.jobs| == |s.jobs| + Nets(cm) + 1
    ensures Ready(t, i, s.reservations[i].id, ad, m, replies, 0, env.now + Minutes(cm.intervalMinutes), horizon)
  {
    t := Step(s, RunJob(j, env));
    var id := s.reservations[i].id;
    assert JobOk(s.reservations, s.jobs[j]) && RowOk(s.reservations[i]);
    assert IndexOf(s.reservations, id) == i;
    PostSchedules(s, j, i, ad, cm, m, env);
    FirstDue(s, t, j, i, ad, cm, m, env.now, horizon);
    SameIdsSameIndex(s.reservations, t.reservations, id);
    assert Decimal(0) == "0" && Ids([m]) == {m};
  }
}
