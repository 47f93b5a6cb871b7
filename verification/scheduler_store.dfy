/** The scheduler over its store, in place: the loops of the store's cancellations, of
    the keep-last reposting and of the planner, and the job handlers, each proved to
    do what the state machine says. */
module SchedulerStore {
  import opened Text
  import opened Schedule
  import S = Scheduler
  import opened Scheduler

  lemma SameIdsSameIndex(rs: seq<Reservation>, qs: seq<Reservation>, id: string)
    requires |rs| == |qs| && forall i | 0 <= i < |rs| :: rs[i].id == qs[i].id
    ensures IndexOf(rs, id) == IndexOf(qs, id)
  {}

  /** CancelCampaignReservations, row by row. */
  function CancelledRow(r: Reservation, campaign: string): Reservation {
    if r.campaign == campaign && r.Open() then r.(status := ResCancelled) else r
  }

  /** The first loop of cutOffCampaign, row by row. */
  function ExpiredRow(r: Reservation, campaign: string, found: set<string>): Reservation {
    if r.campaign == campaign && r.status == ResSent then Expired(r, r.channel in found) else r
  }

  function WithMainPosted(rs: seq<Reservation>, id: string, m: int): seq<Reservation> {
    var i := IndexOf(rs, id);
    if i < |rs| then rs[i := MainPosted(rs[i], m)] else rs
  }

  function WithDeleteAt(rs: seq<Reservation>, id: string, at: Instant): seq<Reservation> {
    var i := IndexOf(rs, id);
    if i < |rs| then rs[i := rs[i].(deleteAt := Some(at))] else rs
  }

  function WithEnd(rs: seq<Reservation>, id: string, end: Option<Instant>): seq<Reservation> {
    if end.Some? then WithDeleteAt(rs, id, end.value) else rs
  }

  /** What sendAd writes to the table, one update after the other. */
  function AdStepwise(rs: seq<Reservation>, job: Job, m: int, env: Env, end: Option<Instant>): seq<Reservation> {
    var sent := if job.payload != "" then WithMainPosted(rs, job.payload, m) else rs;
    var shown := S.AfterPost(sent, job.channel, m, env.reposted);
    WithEnd(shown, job.payload, end)
  }

  lemma AdStepwiseIsAdRows(rs: seq<Reservation>, job: Job, m: int, env: Env, end: Option<Instant>)
    requires end.Some? ==> job.payload != ""
    ensures var i := IndexOf(rs, job.payload);
      AdStepwise(rs, job, m, env, end) ==
      if job.payload != "" && i < |rs| then AdRows(rs, job.channel, i, m, env, end)
      else S.AfterPost(rs, job.channel, m, env.reposted)
  {
    var i := IndexOf(rs, job.payload);
    if job.payload != "" && i < |rs| {
      var shown := S.AfterPost(rs[i := MainPosted(rs[i], m)], job.channel, m, env.reposted);
      SameIdsSameIndex(rs, shown, job.payload);
    } else {
      var shown := S.AfterPost(rs, job.channel, m, env.reposted);
      SameIdsSameIndex(rs, shown, job.payload);
    }
  }

  /** What sendReply writes to the table, one update after the other. */
  lemma ReplyStepwise(rs: seq<Reservation>, channel: string, i: nat, idx: nat, m: int, env: Env, end: Option<Instant>)
    requires i < |rs| && IndexOf(rs, rs[i].id) == i
    ensures var shown := S.AfterPost(rs[i := ReplyPosted(rs[i], m, idx)], channel, m, env.reposted);
      ReplyRows(rs, channel, i, idx, m, env, end) == WithEnd(shown, rs[i].id, end)
  {
    SameIdsSameIndex(rs, ReplyRows(rs, channel, i, idx, m, env, None), rs[i].id);
  }

  class Store {
    var reservations: seq<Reservation>
    var jobs: seq<Job>
    var fetched: seq<nat>

    constructor ()
      ensures View() == EMPTY
    {
      reservations, jobs, fetched := [], [], [];
    }

    function View(): State
      reads this
    {
      State(reservations, jobs, fetched)
    }

    // --------------------------------------------------------------------- tables

    method CreateJob(job: Job)
      modifies this`jobs
      ensures jobs == old(jobs) + [job]
    {
      jobs := jobs + [job];
    }

    method SetReservation(i: nat, r: Reservation)
      requires i < |reservations|
      modifies this`reservations
      ensures reservations == old(reservations)[i := r]
    {
      reservations := reservations[i := r];
    }

    method CancelReservationJobs(id: string)
      modifies this`jobs
      ensures jobs == S.CancelReservationJobs(old(jobs), id)
    {
      var found := jobs;
      for i := 0 to |found|
        invariant |jobs| == |found|
        invariant forall k | 0 <= k < i :: jobs[k] == CancelIf(found[k], BelongsTo(found[k].payload, id))
        invariant forall k | i <= k < |found| :: jobs[k] == found[k]
      {
        if found[i].status == JobPending {
          if found[i].payload == id || id + "|" <= found[i].payload {
            jobs := jobs[i := jobs[i].(status := JobCancelled)];
          }
        }
      }
    }

    method CancelCampaignJobs(campaign: string)
      modifies this`jobs
      ensures jobs == S.CancelCampaignJobs(old(jobs), campaign)
    {
      var found := jobs;
      for i := 0 to |found|
        invariant |jobs| == |found|
        invariant forall k | 0 <= k < i :: jobs[k] == CancelIf(found[k], found[k].campaign == campaign)
        invariant forall k | i <= k < |found| :: jobs[k] == found[k]
      {
        if found[i].campaign == campaign && found[i].status == JobPending {
          jobs := jobs[i := jobs[i].(status := JobCancelled)];
        }
      }
    }

    method CancelCampaignReservations(campaign: string)
      modifies this`reservations
      ensures |reservations| == |old(reservations)|
      ensures forall k | 0 <= k < |reservations| :: reservations[k] == CancelledRow(old(reservations)[k], campaign)
    {
      var found := reservations;
      for i := 0 to |found|
        invariant |reservations| == |found|
        invariant forall k | 0 <= k < i :: reservations[k] == CancelledRow(found[k], campaign)
        invariant forall k | i <= k < |found| :: reservations[k] == found[k]
      {
        if found[i].campaign == campaign && (found[i].status == ResPending || found[i].status == ResConfirmed) {
          reservations := reservations[i := reservations[i].(status := ResCancelled)];
        }
      }
    }

    /** Each message of the list is deleted from the channel. */
    method Delete(i: nat, messages: seq<int>)
      requires i < |reservations|
      modifies this`reservations
      ensures var r := old(reservations)[i];
        reservations == old(reservations)[i := r.(shown := r.shown - Ids(messages))]
    {
      var r := reservations[i];
      assert r.shown - Ids(messages[..0]) == r.shown;
      assert reservations == reservations[i := r];
      for k := 0 to |messages|
        invariant |reservations| == |old(reservations)|
        invariant reservations == old(reservations)[i := r.(shown := r.shown - Ids(messages[..k]))]
      {
        assert messages[..k + 1] == messages[..k] + [messages[k]];
        assert r.shown - Ids(messages[..k + 1]) == r.shown - Ids(messages[..k]) - {messages[k]};
        reservations := reservations[i := reservations[i].(shown := reservations[i].shown - {messages[k]})];
      }
      assert messages[..|messages|] == messages;
    }

    method MarkReservationExpired(i: nat)
      requires i < |reservations|
      modifies this`reservations
      ensures reservations == old(reservations)[i := Expired(old(reservations)[i], false)]
    {
      reservations := reservations[i := reservations[i].(status := ResExpired, live := [])];
    }

    method CutOffCampaign(campaign: string, found: set<string>)
      modifies this
      ensures View() == S.CutOffCampaign(old(View()), campaign, found)
    {
      var live := reservations;
      for i := 0 to |live|
        invariant |reservations| == |live| && jobs == old(jobs) && fetched == old(fetched)
        invariant forall k | 0 <= k < i :: reservations[k] == ExpiredRow(live[k], campaign, found)
        invariant forall k | i <= k < |live| :: reservations[k] == live[k]
      {
        if live[i].campaign == campaign && live[i].status == ResSent {
          if live[i].channel in found {
            Delete(i, live[i].live);
          }
          MarkReservationExpired(i);
        }
      }
      CancelCampaignReservations(campaign);
      CancelCampaignJobs(campaign);
      assert reservations == CutOffRows(live, campaign, found);
    }

    // ----------------------------------------------------------------- after a post

    method AfterPost(channel: string, justPosted: int, reposted: nat -> Option<Repost>)
      modifies this`reservations
      ensures reservations == S.AfterPost(old(reservations), channel, justPosted, reposted)
    {
      var live := reservations;
      for i := 0 to |live|
        invariant |reservations| == |live|
        invariant forall k: nat | k < i :: reservations[k] == AfterPostRow(live[k], channel, justPosted, reposted(k))
        invariant forall k | i <= k < |live| :: reservations[k] == live[k]
      {
        var r := live[i];
        if r.channel == channel && r.status == ResSent && |r.live| > 0 {
          var currentTop := r.live[|r.live| - 1];
          var again := reposted(i);
          if currentTop != justPosted && again.Some? {
            if again.value.deletesOld {
              Delete(i, r.live);
            }
            SetReservationLiveMessage(i, again.value.message);
          }
        }
      }
    }

    method SetReservationLiveMessage(i: nat, m: int)
      requires i < |reservations|
      modifies this`reservations
      ensures reservations == old(reservations)[i := Reposted(old(reservations)[i], Repost(m, false))]
    {
      var r := reservations[i];
      SetReservation(i, r.(live := [m], posted := r.posted + [m], shown := r.shown + {m}));
    }

    method SetReservationMainPosted(id: string, m: int)
      modifies this`reservations
      ensures reservations == WithMainPosted(old(reservations), id, m)
    {
      var i := IndexOf(reservations, id);
      if i < |reservations| {
        SetReservation(i, MainPosted(reservations[i], m));
      }
    }

    method SetReservationDeleteAt(id: string, at: Instant)
      modifies this`reservations
      ensures reservations == WithDeleteAt(old(reservations), id, at)
    {
      var i := IndexOf(reservations, id);
      if i < |reservations| {
        SetReservation(i, reservations[i].(deleteAt := Some(at)));
      }
    }

    /** Read, extend, write back: the history grows by the new message. */
    method SetReservationReplyPosted(i: nat, m: int, index: int)
      requires i < |reservations|
      modifies this`reservations
      ensures reservations == old(reservations)[i := ReplyPosted(old(reservations)[i], m, index)]
    {
      var res := reservations[i];
      var main := 0;
      if |res.live| > 0 {
        main := res.live[0];
      }
      var live := [];
      if main != 0 {
        live := live + [main];
      }
      live := live + [m];
      assert live == (if main != 0 then [main] else []) + [m];
      SetReservation(i, res.(live := live, replyIndex := index, posted := res.posted + [m], shown := res.shown + {m}));
    }

    // --------------------------------------------------------------------- handlers

    method SendAd(job: Job, env: Env) returns (err: bool)
      modifies this
      ensures (View(), err) == SendAdHandler(old(View()), job, env)
    {
      if env.ad.None? || !env.channelFound {
        return true;
      }
      if env.campaign.None? {
        return false;
      }
      if env.copied.None? {
        return true;
      }
      PostAd(job, env.ad.value, env.campaign.value, env.copied.value, env);
      return false;
    }

    /** The rest of sendAd, after its copy has gone out. */
    method PostAd(job: Job, ad: Ad, cm: Campaign, m: int, env: Env)
      modifies this
      ensures View() == S.PostAd(old(View()), job, ad, cm, m, env)
    {
      if job.payload != "" {
        SetReservationMainPosted(job.payload, m);
      }
      AfterPost(job.channel, m, env.reposted);
      ArmCycle(job, ad, cm, env.now);
      AdStepwiseIsAdRows(old(reservations), job, m, env, NetAt(job, cm, env.now));
    }

    /** Its safety net, and its first reply. */
    method ArmCycle(job: Job, ad: Ad, cm: Campaign, now: Instant)
      modifies this
      ensures jobs == old(jobs) + AdJobs(job, ad, cm, now) && fetched == old(fetched)
      ensures reservations == WithEnd(old(reservations), job.payload, NetAt(job, cm, now))
    {
      if cm.deleteAfterMinutes > 0 && job.payload != "" {
        var deleteAt := now + Minutes(cm.deleteAfterMinutes);
        CreateJob(NewJob(DeletePost, job, "", deleteAt, job.payload));
        SetReservationDeleteAt(job.payload, deleteAt);
      }
      if |ad.replies| > 0 {
        CreateJob(ReplyJob(job, ad, now + Minutes(cm.intervalMinutes), job.payload, 0));
      }
      assert jobs == old(jobs) + AdJobs(job, ad, cm, now);
    }

    method SendReply(job: Job, env: Env) returns (err: bool)
      modifies this
      ensures (View(), err) == SendReplyHandler(old(View()), job, env)
    {
      var split := SplitReplyPayload(job.payload);
      if split.None? {
        return false;
      }
      var (id, idx) := split.value;
      var i := IndexOf(reservations, id);
      if i >= |reservations| || |reservations[i].live| == 0 {
        return false;
      }
      if env.ad.None? || idx < 0 || idx >= |env.ad.value.replies| {
        return false;
      }
      if !env.channelFound {
        return true;
      }
      if |reservations[i].live| > 1 {
        assert Ids([reservations[i].live[1]]) == {reservations[i].live[1]};
        Delete(i, [reservations[i].live[1]]);
      }
      assert reservations == old(reservations)[i := ReplyDeleted(old(reservations)[i])];
      assert View() == ClearReply(old(View()), i);
      if env.copied.None? {
        return true;
      }
      SameIdsSameIndex(old(reservations), reservations, id);
      PostReply(job, env.ad.value, i, idx, env.copied.value, env);
      return false;
    }

    /** The rest of sendReply, after its copy has gone out. */
    method PostReply(job: Job, ad: Ad, i: nat, idx: nat, m: int, env: Env)
      requires i < |reservations| && IndexOf(reservations, reservations[i].id) == i && idx < |ad.replies|
      modifies this
      ensures View() == S.PostReply(old(View()), job, ad, i, idx, m, env)
    {
      var id := reservations[i].id;
      SetReservationReplyPosted(i, m, idx);
      ghost var posted := reservations;
      AfterPost(job.channel, m, env.reposted);
      assert reservations == S.AfterPost(posted, job.channel, m, env.reposted);
      ReplyStepwise(old(reservations), job.channel, i, idx, m, env, ReplyEnd(ad, idx, env.now));
      ArmNext(job, ad, id, idx, env.now);
    }

    /** The next reply, or after the last one the end of the cycle. */
    method ArmNext(job: Job, ad: Ad, id: string, idx: nat, now: Instant)
      requires idx < |ad.replies|
      modifies this
      ensures jobs == old(jobs) + [AfterReply(job, ad, id, idx, now)] && fetched == old(fetched)
      ensures reservations == WithEnd(old(reservations), id, ReplyEnd(ad, idx, now))
    {
      var at := now + Minutes(ad.replies[idx]);
      if idx + 1 < |ad.replies| {
        CreateJob(ReplyJob(job, ad, at, id, idx + 1));
      } else {
        CreateJob(NewJob(DeletePost, job, "", at, id));
        SetReservationDeleteAt(id, at);
      }
    }

    method EndCycle(id: string, found: bool)
      modifies this
      ensures View() == S.EndCycle(old(View()), id, found)
    {
      var i := IndexOf(reservations, id);
      if i >= |reservations| {
        return;
      }
      if found {
        Delete(i, reservations[i].live);
      }
      MarkReservationExpired(i);
      CancelReservationJobs(id);
    }

    method RunJob(j: nat, env: Env)
      modifies this
      ensures View() == RunJobStep(old(View()), j, env)
    {
      if j >= |jobs| || jobs[j].status != JobRunning {
        return;
      }
      var job := jobs[j];
      var err := false;
      match job.kind {
        case SendAd => err := SendAd(job, env);
        case SendReply => err := SendReply(job, env);
        case DeletePost =>
          if job.payload != "" {
            EndCycle(job.payload, env.channelFound);
          }
        case Reminder => err := env.reminderFails;
      }
      if j < |jobs| {
        Settle(j, err, env.now);
      }
    }

    method Settle(j: nat, err: bool, now: Instant)
      requires j < |jobs|
      modifies this
      ensures View() == Conclude(old(View()), j, err, now)
    {
      var job := jobs[j];
      if err {
        var attempts := job.attempts - 1;
        if attempts < MAX_ATTEMPTS {
          jobs := jobs[j := job.(status := JobPending, runAt := now + Minutes((attempts + 1) * 5))];
        } else {
          jobs := jobs[j := job.(status := JobFailed)];
          var i := IndexOf(reservations, job.payload);
          if job.payload != "" && i < |reservations| {
            SetReservation(i, reservations[i].(status := ResFailed));
          }
        }
        return;
      }
      jobs := jobs[j := job.(status := JobDone)];
    }

    // ---------------------------------------------------------------------- planner

    method PlanCampaigns(campaigns: seq<Campaign>, now: Instant, lead: int, newId: nat -> Uuid)
      modifies this
      ensures View() == S.PlanCampaigns(old(View()), campaigns, now, lead, newId)
    {
      for n := 0 to |campaigns|
        invariant View() == S.PlanCampaigns(old(View()), campaigns[..n], now, lead, newId)
      {
        assert campaigns[..n + 1][..n] == campaigns[..n];
        PlanCampaign(campaigns[n], now, lead, newId);
      }
      assert campaigns[..|campaigns|] == campaigns;
    }

    method PlanCampaign(cm: Campaign, now: Instant, lead: int, newId: nat -> Uuid)
      modifies this
      ensures View() == S.PlanCampaign(old(View()), cm, now, lead, newId)
    {
      if cm.endAt.Some? && now > cm.endAt.value {
        return;
      }
      if cm.intervalMinutes < 1 {
        return;
      }
      if !InDailyWindow(now, cm.window) {
        CutOffCampaign(cm.id, cm.found);
        return;
      }
      if |cm.ads| == 0 || |cm.channels| == 0 {
        return;
      }
      var windowStart := CurrentWindowStart(now, cm.window);
      var elapsed := ElapsedMinutes(now, windowStart);
      var ad := cm.ads[RotationIndex(elapsed, cm.rotationMinutes, |cm.ads|)];
      for c := 0 to |cm.channels|
        invariant View() == PlanChannels(old(View()), cm, ad, cm.channels[..c], windowStart, now, lead, newId)
      {
        assert cm.channels[..c + 1][..c] == cm.channels[..c];
        PlanChannel(cm, ad, cm.channels[c], windowStart, now, lead, newId);
      }
      assert cm.channels[..|cm.channels|] == cm.channels;
    }

    method PlanChannel(
        cm: Campaign, ad: Ad, ch: string, windowStart: Instant, now: Instant, lead: int, newId: nat -> Uuid)
      modifies this
      ensures View() == S.PlanChannel(old(View()), cm, ad, ch, windowStart, now, lead, newId)
    {
      if HasOpen(reservations, cm.id, ch) {
        return;
      }
      var nextDue := windowStart;
      var last := LastReservationAt(reservations, cm.id, ch);
      if last.Some? {
        nextDue := last.value + CycleGap(cm, ad);
      }
      if !InDailyWindow(nextDue, cm.window) {
        return;
      }
      if lead > 0 {
        if now < nextDue - Minutes(lead) {
          return;
        }
      } else if now < nextDue {
        return;
      }
      var id := newId(|reservations|);
      if IndexOf(reservations, id) < |reservations| {
        return;
      }
      reservations := reservations + [NewReservation(id, cm.id, ad.id, ch, nextDue)];
      CreateJob(Job(JobKind.SendAd, JobPending, cm.id, ad.id, ch, nextDue, 0, id));
      if lead > 0 {
        var reminderAt := nextDue - Minutes(lead);
        if reminderAt < now {
          reminderAt := now;
        }
        CreateJob(Job(Reminder, JobPending, cm.id, ad.id, ch, reminderAt, 0, id));
      }
    }
  }

  // ------------------------------------------------------------------ target channels

  datatype Channel = Channel(id: string, active: bool)

  function Flatten(byTag: seq<seq<string>>): seq<string> {
    if byTag == [] then [] else Flatten(byTag[..|byTag| - 1]) + byTag[|byTag| - 1]
  }

  function Actives(named: seq<Option<Channel>>): seq<string> {
    if named == [] then []
    else
      var last := named[|named| - 1];
      Actives(named[..|named| - 1]) + if last.Some? && last.value.active then [last.value.id] else []
  }

  /** Every ID at its first occurrence. */
  function Distinct(ids: seq<string>): seq<string> {
    if ids == [] then []
    else
      var before, last := Distinct(ids[..|ids| - 1]), ids[|ids| - 1];
      if last in before then before else before + [last]
  }

  lemma {:induction false} DistinctIsExact(ids: seq<string>)
    ensures forall id :: id in Distinct(ids) <==> id in ids
    ensures forall i, k | 0 <= i < k < |Distinct(ids)| :: Distinct(ids)[i] != Distinct(ids)[k]
    decreases |ids|
  {
    if ids != [] {
      DistinctIsExact(ids[..|ids| - 1]);
      assert ids == ids[..|ids| - 1] + [ids[|ids| - 1]];
    }
  }

  lemma DistinctNext(ids: seq<string>, id: string)
    ensures Distinct(ids + [id]) == if id in ids then Distinct(ids) else Distinct(ids) + [id]
  {
    DistinctIsExact(ids);
    assert (ids + [id])[..|ids|] == ids;
  }

  /** What the loops keep: `out` holds each ID of `done` once, `seen` knows them. */
  ghost predicate Tracks(seen: map<string, bool>, out: seq<string>, done: seq<string>) {
    out == Distinct(done) && forall id :: id in seen <==> id in done
  }

  lemma TracksNext(seen: map<string, bool>, out: seq<string>, done: seq<string>, id: string)
    requires Tracks(seen, out, done)
    ensures if id in seen then Tracks(seen, out, done + [id]) else Tracks(seen[id := true], out + [id], done + [id])
  {
    DistinctNext(done, id);
  }

  /** One more channel, unless it has been seen. */
  method AddChannel(seen: map<string, bool>, out: seq<string>, ch: string, ghost done: seq<string>)
    returns (seen': map<string, bool>, out': seq<string>)
    requires Tracks(seen, out, done)
    ensures Tracks(seen', out', done + [ch])
  {
    TracksNext(seen, out, done, ch);
    seen', out' := seen, out;
    if ch !in seen {
      seen' := seen[ch := true];
      out' := out + [ch];
    }
  }

  lemma TakeNext<T>(before: seq<T>, s: seq<T>, n: nat)
    requires n < |s|
    ensures (before + s[..n]) + [s[n]] == before + s[..n + 1]
  {}

  lemma FlattenNext(groups: seq<seq<string>>, n: nat)
    requires n < |groups|
    ensures Flatten(groups[..n + 1]) == Flatten(groups[..n]) + groups[n]
  {
    assert groups[..n + 1][..n] == groups[..n];
  }

  lemma ActivesNext(before: seq<string>, named: seq<Option<Channel>>, n: nat)
    requires n < |named|
    ensures before + Actives(named[..n + 1]) ==
      if named[n].Some? && named[n].value.active then (before + Actives(named[..n])) + [named[n].value.id]
      else before + Actives(named[..n])
  {
    assert named[..n + 1][..n] == named[..n];
  }

  /** A campaign's channels: those of its tags, then the active ones it names; each
      once. */
  method ResolveChannels(byTag: seq<seq<string>>, named: seq<Option<Channel>>) returns (out: seq<string>)
    ensures out == Distinct(Flatten(byTag) + Actives(named))
  {
    var seen: map<string, bool> := map[];
    out := [];
    ghost var done: seq<string> := [];
    for t := 0 to |byTag|
      invariant done == Flatten(byTag[..t]) && Tracks(seen, out, done)
    {
      FlattenNext(byTag, t);
      ghost var before := done;
      for c := 0 to |byTag[t]|
        invariant done == before + byTag[t][..c] && Tracks(seen, out, done)
      {
        var ch := byTag[t][c];
        seen, out := AddChannel(seen, out, ch, done);
        TakeNext(before, byTag[t], c);
        done := done + [ch];
      }
      assert byTag[t][..|byTag[t]|] == byTag[t];
    }
    assert byTag[..|byTag|] == byTag;
    for n := 0 to |named|
      invariant done == Flatten(byTag) + Actives(named[..n]) && Tracks(seen, out, done)
    {
      ActivesNext(Flatten(byTag), named, n);
      var ch := named[n];
      if ch.Some? && ch.value.active {
        seen, out := AddChannel(seen, out, ch.value.id, done);
        done := done + [ch.value.id];
      }
    }
    assert named[..|named|] == named;
  }
}
