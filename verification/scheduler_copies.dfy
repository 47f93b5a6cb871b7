/** Copies the table loses sight of: none while keep-last ads delete what they repeat
    and channels are found; otherwise they outlive the cut-off. */
module SchedulerCopies {
  import opened Text
  import opened Schedule
  import opened Scheduler
  import opened SchedulerLife
  import opened SchedulerCutOff

  /** What a careful outside answers: every channel of `all` is found, copies get
      non-zero IDs, and a keep-last ad sent again deletes its earlier copies. */
  ghost predicate Careful(e: Event, all: set<string>) {
    match e
    case Plan(campaigns, _, _, _) =>
      forall c | 0 <= c < |campaigns| ::
        all <= campaigns[c].found && forall k | 0 <= k < |campaigns[c].channels| :: campaigns[c].channels[k] in all
    case RunJob(_, env) =>
      && env.channelFound && env.copied != Some(0)
      && forall k: nat :: CarefulRepost(env.reposted(k))
    case _ => true
  }

  predicate CarefulRepost(again: Option<Repost>) {
    again.Some? ==> again.value.deletesOld && again.value.message != 0
  }

  predicate RowClean(r: Reservation, all: set<string>) {
    r.channel in all && 0 !in r.live && r.shown <= Ids(r.live)
  }

  predicate Clean(rs: seq<Reservation>, all: set<string>) {
    forall i | 0 <= i < |rs| :: RowClean(rs[i], all)
  }

  // ------------------------------------------------------------------------- updates

  lemma CutOffKeepsClean(rs: seq<Reservation>, campaign: string, found: set<string>, all: set<string>)
    requires Clean(rs, all) && all <= found
    ensures Clean(CutOffRows(rs, campaign, found), all)
  {
    forall i | 0 <= i < |rs|
      ensures RowClean(CutOffRow(rs[i], campaign, found), all)
    {
      assert RowClean(rs[i], all);
    }
  }

  lemma {:induction false} AfterPostKeepsClean(
    rs: seq<Reservation>, channel: string, m: int, again: nat -> Option<Repost>, all: set<string>)
    requires Clean(rs, all) && forall k: nat :: CarefulRepost(again(k))
    ensures Clean(AfterPost(rs, channel, m, again), all)
  {
    forall i: nat | i < |rs|
      ensures RowClean(AfterPostRow(rs[i], channel, m, again(i)), all)
    {
      assert RowClean(rs[i], all) && CarefulRepost(again(i));
    }
  }

  lemma MainKeepsClean(r: Reservation, m: int, all: set<string>)
    requires RowOk(r) && RowClean(r, all) && r.posted == [] && m != 0
    ensures RowClean(MainPosted(r, m), all)
  {
    assert r.shown == {};
  }

  lemma ReplyKeepsClean(r: Reservation, m: int, index: int, all: set<string>)
    requires RowOk(r) && RowClean(r, all) && m != 0
    ensures RowClean(ReplyDeleted(r), all) && RowClean(ReplyPosted(ReplyDeleted(r), m, index), all)
  {
    var d, q := ReplyDeleted(r), ReplyPosted(ReplyDeleted(r), m, index);
    forall x | x in q.shown
      ensures x in q.live
    {
      if x in r.shown {
        assert x in r.live;
        assert r.live[0] in r.live;
        if x != m {
          assert x == r.live[0];
          assert q.live[0] == x;
        }
      }
      assert q.live[|q.live| - 1] == m;
    }
  }

  lemma AdKeepsClean(
    rs: seq<Reservation>, channel: string, i: nat, m: int, env: Env, end: Option<Instant>, all: set<string>)
    requires RowsOk(rs) && Clean(rs, all) && i < |rs| && rs[i].posted == [] && m != 0
    requires forall k: nat :: CarefulRepost(env.reposted(k))
    ensures Clean(AdRows(rs, channel, i, m, env, end), all)
  {
    assert RowOk(rs[i]) && RowClean(rs[i], all);
    MainKeepsClean(rs[i], m, all);
    AfterPostKeepsClean(rs[i := MainPosted(rs[i], m)], channel, m, env.reposted, all);
  }

  lemma {:induction false} ReplyRowsKeepClean(
    rs: seq<Reservation>, channel: string, i: nat, idx: nat, m: int, env: Env, end: Option<Instant>, all: set<string>)
    requires RowsOk(rs) && Clean(rs, all) && i < |rs| && m != 0
    requires forall k: nat :: CarefulRepost(env.reposted(k))
    ensures var cs := rs[i := ReplyDeleted(rs[i])];
      Clean(cs, all) && Clean(ReplyRows(cs, channel, i, idx, m, env, end), all)
  {
    assert RowOk(rs[i]) && RowClean(rs[i], all);
    ReplyKeepsClean(rs[i], m, idx, all);
    var cs := rs[i := ReplyDeleted(rs[i])];
    AfterPostKeepsClean(cs[i := ReplyPosted(cs[i], m, idx)], channel, m, env.reposted, all);
  }

  // -------------------------------------------------------------------------- passes

  lemma ChannelKeepsClean(
    s: State, cm: Campaign, ad: Ad, channel: string, start: Instant, now: Instant, lead: int, newId: nat -> Uuid,
    all: set<string>)
    requires Clean(s.reservations, all) && channel in all
    ensures Clean(PlanChannel(s, cm, ad, channel, start, now, lead, newId).reservations, all)
  {}

  lemma {:induction false} ChannelsKeepClean(
    s: State, cm: Campaign, ad: Ad, channels: seq<string>, start: Instant, now: Instant, lead: int,
    newId: nat -> Uuid, all: set<string>)
    requires Clean(s.reservations, all) && forall k | 0 <= k < |channels| :: channels[k] in all
    ensures Clean(PlanChannels(s, cm, ad, channels, start, now, lead, newId).reservations, all)
    decreases |channels|
  {
    if channels != [] {
      var most := channels[..|channels| - 1];
      ChannelsKeepClean(s, cm, ad, most, start, now, lead, newId, all);
      ChannelKeepsClean(PlanChannels(s, cm, ad, most, start, now, lead, newId), cm, ad, channels[|channels| - 1],
                        start, now, lead, newId, all);
    }
  }

  lemma CampaignKeepsClean(s: State, cm: Campaign, now: Instant, lead: int, newId: nat -> Uuid, all: set<string>)
    requires Clean(s.reservations, all) && all <= cm.found
    requires forall k | 0 <= k < |cm.channels| :: cm.channels[k] in all
    ensures Clean(PlanCampaign(s, cm, now, lead, newId).reservations, all)
  {
    CutOffKeepsClean(s.reservations, cm.id, cm.found, all);
    if cm.ads != [] {
      var start := CurrentWindowStart(now, cm.window);
      ChannelsKeepClean(s, cm, CurrentAd(cm, now), cm.channels, start, now, lead, newId, all);
    }
  }

  lemma {:induction false} PassKeepsClean(
    s: State, campaigns: seq<Campaign>, now: Instant, lead: int, newId: nat -> Uuid, all: set<string>)
    requires Clean(s.reservations, all) && Careful(Plan(campaigns, now, lead, newId), all)
    ensures Clean(PlanCampaigns(s, campaigns, now, lead, newId).reservations, all)
    decreases |campaigns|
  {
    if campaigns != [] {
      var n := |campaigns| - 1;
      PassKeepsClean(s, campaigns[..n], now, lead, newId, all);
      CampaignKeepsClean(PlanCampaigns(s, campaigns[..n], now, lead, newId), campaigns[n], now, lead, newId, all);
    }
  }

  // ---------------------------------------------------------------------------- runs

  lemma ConcludeKeepsClean(s: State, j: nat, err: bool, now: Instant, all: set<string>)
    requires Clean(s.reservations, all) && j < |s.jobs|
    ensures Clean(Conclude(s, j, err, now).reservations, all)
  {
    var i := IndexOf(s.reservations, s.jobs[j].payload);
    if i < |s.reservations| {
      assert RowClean(s.reservations[i], all);
    }
  }

  lemma SendAdKeepsClean(s: State, j: nat, env: Env, all: set<string>)
    requires Life(s) && j < |s.jobs| && s.jobs[j].status == JobRunning && s.jobs[j].kind == SendAd
    requires Clean(s.reservations, all) && Careful(RunJob(j, env), all)
    ensures Clean(SendAdHandler(s, s.jobs[j], env).0.reservations, all)
  {
    var job := s.jobs[j];
    assert JobOk(s.reservations, job);
    if env.ad.Some? && env.campaign.Some? && env.copied.Some? {
      AdKeepsClean(s.reservations, job.channel, IndexOf(s.reservations, job.payload), env.copied.value, env,
                   NetAt(job, env.campaign.value, env.now), all);
    }
  }

  lemma SendReplyKeepsClean(s: State, job: Job, env: Env, all: set<string>)
    requires RowsOk(s.reservations) && Clean(s.reservations, all)
    requires env.copied != Some(0) && forall k: nat :: CarefulRepost(env.reposted(k))
    ensures Clean(SendReplyHandler(s, job, env).0.reservations, all)
  {
    if Replies(s, job, env) {
      var (id, idx) := SplitReplyPayload(job.payload).value;
      var m := if env.copied.Some? then env.copied.value else 1;
      ReplyRowsKeepClean(s.reservations, job.channel, IndexOf(s.reservations, id), idx, m, env,
                         ReplyEnd(env.ad.value, idx, env.now), all);
    }
  }

  lemma EndKeepsClean(s: State, id: string, all: set<string>)
    requires Clean(s.reservations, all)
    ensures Clean(EndCycle(s, id, true).reservations, all)
  {
    var i := IndexOf(s.reservations, id);
    if i < |s.reservations| {
      assert RowClean(s.reservations[i], all);
    }
  }

  lemma HandlerKeepsClean(s: State, j: nat, env: Env, all: set<string>)
    requires Life(s) && Clean(s.reservations, all) && Careful(RunJob(j, env), all)
    requires j < |s.jobs| && s.jobs[j].status == JobRunning
    ensures Clean(Handle(s, s.jobs[j], env).0.reservations, all)
  {
    match s.jobs[j].kind
    case SendAd => SendAdKeepsClean(s, j, env, all);
    case SendReply => SendReplyKeepsClean(s, s.jobs[j], env, all);
    case DeletePost => EndKeepsClean(s, s.jobs[j].payload, all);
    case Reminder =>
  }

  lemma JobKeepsClean(s: State, j: nat, env: Env, all: set<string>)
    requires Life(s) && Clean(s.reservations, all) && Careful(RunJob(j, env), all)
    ensures Clean(RunJobStep(s, j, env).reservations, all)
  {
    if j < |s.jobs| && s.jobs[j].status == JobRunning {
      var (t, err) := Handle(s, s.jobs[j], env);
      HandlerKeepsClean(s, j, env, all);
      if j < |t.jobs| {
        ConcludeKeepsClean(t, j, err, env.now, all);
      }
    }
  }

  /** In careful runs everything in a channel is listed as live on its row. */
  lemma {:induction false} CarefulRunsStayClean(events: seq<Event>, all: set<string>)
    requires forall n | 0 <= n < |events| :: Careful(events[n], all)
    ensures Clean(RunFrom(EMPTY, events).reservations, all)
    decreases |events|
  {
    if events != [] {
      var n := |events| - 1;
      var s := RunFrom(EMPTY, events[..n]);
      CarefulRunsStayClean(events[..n], all);
      RunKeepsLife(EMPTY, events[..n]);
      assert Careful(events[n], all);
      match events[n]
      case Plan(campaigns, now, lead, newId) => PassKeepsClean(s, campaigns, now, lead, newId, all);
      case RunJob(j, env) => JobKeepsClean(s, j, env, all);
      case Fetch(_) =>
      case StartNext =>
    }
  }

  /** After a careful run a cut-off that finds its channels silences the campaign if and
      only if no Failed reservation of it shows a message. */
  lemma {:induction false} CarefulCutOffIff(events: seq<Event>, all: set<string>, campaign: string, found: set<string>)
    requires (forall n | 0 <= n < |events| :: Careful(events[n], all)) && all <= found
    ensures var s := RunFrom(EMPTY, events);
      Silent(CutOffCampaign(s, campaign, found).reservations, campaign) <==>
      forall i | 0 <= i < |s.reservations| && Of(s.reservations[i], campaign) ::
        s.reservations[i].status == ResFailed ==> s.reservations[i].shown == {}
  {
    var s := RunFrom(EMPTY, events);
    CarefulRunsStayClean(events, all);
    RunKeepsLife(EMPTY, events);
    CutOffClearsIff(s, campaign, found);
    forall i | 0 <= i < |s.reservations| && Of(s.reservations[i], campaign)
      ensures Remains(s.reservations[i], campaign, found) <==>
        s.reservations[i].status == ResFailed && s.reservations[i].shown != {}
    {
      FailedRemains(s.reservations[i], campaign, found, all);
    }
  }

  lemma FailedRemains(r: Reservation, campaign: string, found: set<string>, all: set<string>)
    requires RowOk(r) && RowClean(r, all) && all <= found && Of(r, campaign)
    ensures Remains(r, campaign, found) <==> r.status == ResFailed && r.shown != {}
  {
    if r.live == [] {
      assert r.shown == {};
    } else {
      LiveWasPosted(r);
    }
  }

  // ------------------------------------------------------------------ copies left behind

  /** A copy the table has lost sight of outlives every cut-off of every continuation,
      unless its ID is posted for the row again. */
  lemma {:induction false} LostCopyOutlivesCutOffs(
    events: seq<Event>, more: seq<Event>, i: nat, m: int, found: set<string>)
    requires i < |RunFrom(EMPTY, events).reservations| && m in Abandoned(RunFrom(EMPTY, events).reservations[i])
    requires i < |RunFrom(EMPTY, events + more).reservations|
    requires var r, q := RunFrom(EMPTY, events).reservations[i], RunFrom(EMPTY, events + more).reservations[i];
      r.posted <= q.posted && m !in q.posted[|r.posted|..]
    ensures var t := RunFrom(EMPTY, events + more);
      !Silent(CutOffCampaign(t, t.reservations[i].campaign, found).reservations, t.reservations[i].campaign)
  {
    EndedStaysEnded(events, more, i);
    var t := RunFrom(EMPTY, events + more);
    CutOffClearsIff(t, t.reservations[i].campaign, found);
    assert m in Abandoned(t.reservations[i]);
    assert Remains(t.reservations[i], t.reservations[i].campaign, found);
  }

  /** Two hourly campaigns on one channel; the first one's ad is to stay last. */
  function Daily(id: string): Campaign {
    Campaign(id, Window(9, 0, 18, 0), 60, 0, 0, None, [Ad("a", [])], ["ch"], {"ch"})
  }

  function Both(): seq<Campaign> {
    [Daily("c"), Daily("d")]
  }

  function Pick(a: Uuid, b: Uuid): nat -> Uuid {
    (k: nat) => if k == 0 then a else b
  }

  function Repeats(k: nat): Option<Repost> {
    if k == 0 then Some(Repost(9, false)) else None
  }

  function Posting(message: int, reposted: nat -> Option<Repost>): Env {
    Env(NINE, Some(Ad("a", [])), true, Some(Daily("c")), Some(message), reposted, false)
  }

  function Row(id: Uuid, campaign: string): Reservation {
    NewReservation(id, campaign, "a", "ch", NINE)
  }

  function SendOf(id: Uuid, campaign: string, status: JobStatus, attempts: int): Job {
    Job(SendAd, status, campaign, "a", "ch", NINE, attempts, id)
  }

  function Due(a: Uuid, b: Uuid): State {
    State([Row(a, "c"), Row(b, "d")], [SendOf(a, "c", JobPending, 0), SendOf(b, "d", JobPending, 0)], [])
  }

  lemma NineInWindow(id: string)
    ensures InDailyWindow(NINE, Daily(id).window) && CurrentWindowStart(NINE, Daily(id).window) == NINE
    ensures CurrentAd(Daily(id), NINE) == Ad("a", [])
  {
    assert MinuteOfDay(NINE) == 540 && DayNumber(NINE) == 0;
  }

  lemma OneChannel(s: State, id: string, newId: nat -> Uuid)
    requires forall i | 0 <= i < |s.reservations| :: s.reservations[i].campaign != id
    requires IndexOf(s.reservations, newId(|s.reservations|)) == |s.reservations|
    ensures PlanCampaign(s, Daily(id), NINE, 0, newId) == Reserve(s, Row(newId(|s.reservations|), id), NINE, 0)
  {
    NineInWindow(id);
    NoRowYet(s.reservations, id, "ch");
    assert ["ch"][..0] == [];
    assert PlanChannels(s, Daily(id), Ad("a", []), [], NINE, NINE, 0, newId) == s;
    assert PlanCampaign(s, Daily(id), NINE, 0, newId)
        == PlanChannels(s, Daily(id), Ad("a", []), ["ch"], NINE, NINE, 0, newId);
  }

  lemma {:induction false} NoRowYet(rs: seq<Reservation>, campaign: string, channel: string)
    requires forall i | 0 <= i < |rs| :: rs[i].campaign != campaign
    ensures !HasOpen(rs, campaign, channel) && LastReservationAt(rs, campaign, channel) == None
    decreases |rs|
  {
    if rs != [] {
      NoRowYet(rs[..|rs| - 1], campaign, channel);
    }
  }

  lemma BothPlanned(a: Uuid, b: Uuid)
    requires a != b
    ensures PlanCampaigns(EMPTY, Both(), NINE, 0, Pick(a, b)) == Due(a, b)
  {
    var s1 := State([Row(a, "c")], [SendOf(a, "c", JobPending, 0)], []);
    OneChannel(EMPTY, "c", Pick(a, b));
    assert Both()[..1] == [Daily("c")] && [Daily("c")][..0] == [];
    assert PlanCampaigns(EMPTY, [], NINE, 0, Pick(a, b)) == EMPTY;
    assert PlanCampaigns(EMPTY, [Daily("c")], NINE, 0, Pick(a, b)) == s1;
    assert IndexOf(s1.reservations, b) == 1;
    OneChannel(s1, "d", Pick(a, b));
  }

  function Running(a: Uuid, b: Uuid): State {
    State(Due(a, b).reservations, [SendOf(a, "c", JobRunning, 1), SendOf(b, "d", JobRunning, 1)], [])
  }

  lemma BothStarted(a: Uuid, b: Uuid)
    ensures Step(Step(Step(Due(a, b), Fetch(NINE)), StartNext), StartNext) == Running(a, b)
  {
    var js := Due(a, b).jobs;
    assert js[..1] == [js[0]] && js[..1][..0] == [];
    assert DueJobs(js[..1], NINE) == [0];
    assert DueJobs(js, NINE) == [0, 1];
    var s2 := Step(Step(Due(a, b), Fetch(NINE)), StartNext);
    assert s2 == State(Due(a, b).reservations, [SendOf(a, "c", JobRunning, 1), js[1]], [1]);
  }

  /** An ad without replies and safety net goes out for row i. */
  function FirstPosted(a: Uuid, b: Uuid): State {
    State([MainPosted(Row(a, "c"), 7), Row(b, "d")], [SendOf(a, "c", JobDone, 1), SendOf(b, "d", JobRunning, 1)], [])
  }

  lemma FirstGoesOut(a: Uuid, b: Uuid)
    requires a != b
    ensures RunJobStep(Running(a, b), 0, Posting(7, NoRepost)) == FirstPosted(a, b)
  {
    var s := Running(a, b);
    var rs := s.reservations;
    assert IndexOf(rs, a) == 0 && a != "";
    PostPlain(s, s.jobs[0], Ad("a", []), Daily("c"), 0, 7, Posting(7, NoRepost));
    assert AfterPost(rs[0 := MainPosted(rs[0], 7)], "ch", 7, NoRepost) == FirstPosted(a, b).reservations;
  }

  function SecondPosted(a: Uuid, b: Uuid): State {
    State([Reposted(MainPosted(Row(a, "c"), 7), Repost(9, false)), MainPosted(Row(b, "d"), 8)],
          [SendOf(a, "c", JobDone, 1), SendOf(b, "d", JobDone, 1)], [])
  }

  lemma SecondGoesOut(a: Uuid, b: Uuid)
    requires a != b
    ensures RunJobStep(FirstPosted(a, b), 1, Posting(8, Repeats)) == SecondPosted(a, b)
  {
    var s := FirstPosted(a, b);
    var rs := s.reservations;
    assert IndexOf(rs, b) == 1 && b != "";
    PostPlain(s, s.jobs[1], Ad("a", []), Daily("c"), 1, 8, Posting(8, Repeats));
    assert AfterPost(rs[1 := MainPosted(rs[1], 8)], "ch", 8, Repeats) == SecondPosted(a, b).reservations;
  }

  function PlanAndStart(a: Uuid, b: Uuid): seq<Event> {
    [Plan(Both(), NINE, 0, Pick(a, b)), Fetch(NINE), StartNext]
  }

  function PostBoth(): seq<Event> {
    [StartNext, RunJob(0, Posting(7, NoRepost)), RunJob(1, Posting(8, Repeats))]
  }

  /** A morning in which the second post makes the first ad repeat itself, and the first
      pass after the window. */
  function KeepLastDay(a: Uuid, b: Uuid): seq<Event> {
    (PlanAndStart(a, b) + PostBoth()) + [Plan(Both(), NINE + Minutes(660), 0, Pick(a, b))]
  }

  lemma PlanningRuns(a: Uuid, b: Uuid)
    requires a != b
    ensures Step(RunFrom(EMPTY, PlanAndStart(a, b)), StartNext) == Running(a, b)
  {
    BothPlanned(a, b);
    BothStarted(a, b);
    ThreeSteps(EMPTY, Plan(Both(), NINE, 0, Pick(a, b)), Fetch(NINE), StartNext);
  }

  lemma PostingRuns(s: State, a: Uuid, b: Uuid)
    requires a != b && Step(s, StartNext) == Running(a, b)
    ensures RunFrom(s, PostBoth()) == SecondPosted(a, b)
  {
    FirstGoesOut(a, b);
    SecondGoesOut(a, b);
    ThreeSteps(s, StartNext, RunJob(0, Posting(7, NoRepost)), RunJob(1, Posting(8, Repeats)));
  }

  lemma MorningRuns(a: Uuid, b: Uuid)
    requires a != b
    ensures RunFrom(EMPTY, PlanAndStart(a, b) + PostBoth()) == SecondPosted(a, b)
  {
    PlanningRuns(a, b);
    PostingRuns(RunFrom(EMPTY, PlanAndStart(a, b)), a, b);
    RunSplits(EMPTY, PlanAndStart(a, b), PostBoth());
  }

  lemma EveningCutsBoth(s: State, newId: nat -> Uuid)
    ensures Step(s, Plan(Both(), NINE + Minutes(660), 0, newId)) ==
      CutOffCampaign(CutOffCampaign(s, "c", {"ch"}), "d", {"ch"})
  {
    var end := NINE + Minutes(660);
    assert MinuteOfDay(end) == 1200 && !InDailyWindow(end, Daily("c").window);
    assert Both()[..1] == [Daily("c")] && [Daily("c")][..0] == [];
    assert PlanCampaigns(s, [], end, 0, newId) == s;
    assert PlanCampaigns(s, [Daily("c")], end, 0, newId) == CutOffCampaign(s, "c", {"ch"});
  }

  /** With no reservation ever Failed and every channel found, a keep-last ad that does
      not delete its earlier copy leaves it in the channel past the cut-off. */
  lemma KeepLastLeavesACopy(a: Uuid, b: Uuid)
    requires a != b
    ensures var s := RunFrom(EMPTY, KeepLastDay(a, b));
      && |s.reservations| == 2 && s.reservations[0].campaign == "c"
      && s.reservations[0].status == ResExpired && s.reservations[0].live == [] && s.reservations[0].shown == {7}
      && s.reservations[1].status == ResExpired
  {
    MorningRuns(a, b);
    OneStep(EMPTY, PlanAndStart(a, b) + PostBoth(), Plan(Both(), NINE + Minutes(660), 0, Pick(a, b)));
    EveningCutsBoth(SecondPosted(a, b), Pick(a, b));
    BothCut(a, b);
  }

  lemma BothCut(a: Uuid, b: Uuid)
    ensures var rs := CutOffCampaign(CutOffCampaign(SecondPosted(a, b), "c", {"ch"}), "d", {"ch"}).reservations;
      && |rs| == 2 && rs[0].campaign == "c" && rs[0].status == ResExpired && rs[0].live == [] && rs[0].shown == {7}
      && rs[1].status == ResExpired
  {
    var r := SecondPosted(a, b).reservations[0];
    assert r.shown == {7, 9} && r.live == [9] && Ids([9]) == {9};
    assert CutOffRow(r, "c", {"ch"}).shown == {7};
  }
}
