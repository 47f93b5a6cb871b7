/** When the planner never serves a channel again. The next slot is counted from the
    last one only, so a slot that falls outside the daily window stays there. */
module SchedulerStarve {
  import opened Text
  import opened Schedule
  import opened Scheduler
  import opened SchedulerLife
  import opened SchedulerPlan

  /** The cycle of the ad that the rotation shows at t. */
  function GapAt(cm: Campaign, t: Instant): int {
    if cm.ads == [] then 0 else CycleGap(cm, CurrentAd(cm, t))
  }

  /** At t, in the window, the slot after `last` falls in the window too. */
  predicate Fits(cm: Campaign, last: Instant, t: Instant) {
    InDailyWindow(t, cm.window) && InDailyWindow(last + GapAt(cm, t), cm.window)
  }

  /** No ad the rotation ever shows brings the pair's next slot into the window. */
  ghost predicate Starved(rs: seq<Reservation>, cm: Campaign, channel: string) {
    var last := LastReservationAt(rs, cm.id, channel);
    last.Some? && forall t :: !Fits(cm, last.value, t)
  }

  /** If it is this campaign, its window, interval, rotation and ads are these. */
  predicate SameSettings(c: Campaign, cm: Campaign) {
    c.id == cm.id ==>
      && c.window == cm.window && c.intervalMinutes == cm.intervalMinutes
      && c.rotationMinutes == cm.rotationMinutes && c.ads == cm.ads
  }

  predicate Unchanged(events: seq<Event>, cm: Campaign) {
    forall n | 0 <= n < |events| && events[n].Plan? ::
      forall c | 0 <= c < |events[n].campaigns| :: SameSettings(events[n].campaigns[c], cm)
  }

  /** What a pass makes of a row of the pair, by the settings it sees. */
  lemma SlotOf(e: Event, rs: seq<Reservation>, k: nat) returns (c: Campaign)
    requires k < |rs| && PlannedBy(e, rs, k)
    ensures c in e.campaigns && c.id == rs[k].campaign && c.intervalMinutes >= 1
    ensures InDailyWindow(e.now, c.window) && InDailyWindow(rs[k].scheduledAt, c.window)
    ensures c.ads != [] && CurrentAd(c, e.now) in c.ads
    ensures forall i | Earlier(rs, i, k) :: rs[i].scheduledAt + GapAt(c, e.now) <= rs[k].scheduledAt
    ensures HasEarlier(rs, k) ==>
      exists i :: Earlier(rs, i, k) && rs[i].scheduledAt + GapAt(c, e.now) == rs[k].scheduledAt
    ensures !HasEarlier(rs, k) ==> rs[k].scheduledAt == CurrentWindowStart(e.now, c.window)
  {
    var i :| 0 <= i < |e.campaigns| && PlannedFor(e.campaigns[i], e.now, rs, k);
    c := e.campaigns[i];
  }

  // ----------------------------------------------------------------- starved for good

  predicate NoNewRow(rs: seq<Reservation>, qs: seq<Reservation>, campaign: string, channel: string) {
    |rs| <= |qs| && forall k | |rs| <= k < |qs| :: !qs[k].For(campaign, channel)
  }

  lemma SameGap(c: Campaign, cm: Campaign, t: Instant)
    requires SameSettings(c, cm) && c.id == cm.id
    ensures GapAt(c, t) == GapAt(cm, t)
  {}

  /** The pair's next row after those of rs comes one cycle of the current ad after its
      last. */
  lemma NextSlot(e: Event, rs: seq<Reservation>, qs: seq<Reservation>, cm: Campaign, channel: string, k: nat)
    requires SameSlots(rs, qs) && |rs| <= k < |qs| && qs[k].For(cm.id, channel)
    requires LastReservationAt(rs, cm.id, channel).Some?
    requires PlannedBy(e, qs, k) && Unchanged([e], cm)
    requires forall n: nat | |rs| <= n < k :: !qs[n].For(cm.id, channel)
    ensures Fits(cm, LastReservationAt(rs, cm.id, channel).value, e.now)
    ensures qs[k].scheduledAt == LastReservationAt(rs, cm.id, channel).value + GapAt(cm, e.now)
  {
    LastIsLatest(rs, cm.id, channel);
    var last := LastReservationAt(rs, cm.id, channel).value;
    var l :| 0 <= l < |rs| && rs[l].For(cm.id, channel) && rs[l].scheduledAt == last;
    assert Earlier(qs, l, k);
    var c := SlotOf(e, qs, k);
    assert [e][0] == e;
    assert SameSettings(c, cm);
    SameGap(c, cm, e.now);
    var i :| Earlier(qs, i, k) && qs[i].scheduledAt + GapAt(c, e.now) == qs[k].scheduledAt;
    assert qs[i].For(cm.id, channel);
    assert SamePair(rs[i], qs[i]);
    assert rs[i].For(cm.id, channel);
  }

  lemma NoRowInPass(
    e: Event, rs: seq<Reservation>, us: seq<Reservation>, qs: seq<Reservation>, cm: Campaign, channel: string,
    upTo: nat)
    requires SameSlots(rs, qs) && SameSlots(us, qs) && NoNewRow(rs, us, cm.id, channel)
    requires Starved(rs, cm, channel) && Unchanged([e], cm)
    requires |us| <= upTo <= |qs| && forall n: nat | |us| <= n < |qs| :: PlannedBy(e, qs, n)
    ensures forall n: nat | |rs| <= n < upTo :: !qs[n].For(cm.id, channel)
    decreases upTo
  {
    if upTo > |us| {
      NoRowInPass(e, rs, us, qs, cm, channel, upTo - 1);
      if qs[upTo - 1].For(cm.id, channel) {
        NextSlot(e, rs, qs, cm, channel, upTo - 1);
      }
    } else {
      forall n: nat | |rs| <= n < upTo
        ensures !qs[n].For(cm.id, channel)
      {
        assert SamePair(us[n], qs[n]);
      }
    }
  }

  lemma SlotsChain(a: seq<Reservation>, b: seq<Reservation>, c: seq<Reservation>)
    requires SameSlots(a, b) && SameSlots(b, c)
    ensures SameSlots(a, c)
  {}

  /** Once no ad brings the pair's next slot into the window, no run ever makes another
      reservation for the pair, whatever the jobs do, as long as the campaign's settings
      stay as they are; no later day changes that. */
  lemma {:induction false} StarvedForever(s: State, events: seq<Event>, cm: Campaign, channel: string)
    requires Life(s) && UniqueOpen(s.reservations)
    requires Starved(s.reservations, cm, channel) && Unchanged(events, cm)
    ensures var qs := RunFrom(s, events).reservations;
      && SameSlots(s.reservations, qs) && NoNewRow(s.reservations, qs, cm.id, channel) && UniqueOpen(qs)
    decreases |events|
  {
    if events != [] {
      var n := |events| - 1;
      var before, e := RunFrom(s, events[..n]), events[n];
      UnchangedParts(events, cm);
      StarvedForever(s, events[..n], cm, channel);
      RunKeepsLife(s, events[..n]);
      StepPlansSafely(before, e);
      var qs := Step(before, e).reservations;
      SlotsChain(s.reservations, before.reservations, qs);
      NoRowInPass(e, s.reservations, before.reservations, qs, cm, channel, |qs|);
    }
  }

  lemma UnchangedParts(events: seq<Event>, cm: Campaign)
    requires events != [] && Unchanged(events, cm)
    ensures Unchanged(events[..|events| - 1], cm) && Unchanged([events[|events| - 1]], cm)
  {
    var n := |events| - 1;
    assert forall i | 0 <= i < n :: events[..n][i] == events[i];
    assert [events[n]][0] == events[n];
  }

  const NINE: Instant := 32_400_000_000_000

  /** From nine to ten, one post an hour. */
  function OneHour(): Campaign {
    Campaign("c", Window(9, 0, 10, 0), 60, 0, 0, None, [Ad("a", [])], ["ch"], {"ch"})
  }

  lemma OneHourPlans(id: Uuid)
    ensures PlanCampaign(EMPTY, OneHour(), NINE, 0, (k: nat) => id)
      == Reserve(EMPTY, NewReservation(id, "c", "a", "ch", NINE), NINE, 0)
  {
    var cm, newId := OneHour(), (k: nat) => id;
    assert MinuteOfDay(NINE) == 540 && DayNumber(NINE) == 0;
    assert CurrentWindowStart(NINE, cm.window) == NINE && CurrentAd(cm, NINE) == cm.ads[0];
    assert ["ch"][..0] == [];
    assert PlanChannels(EMPTY, cm, cm.ads[0], [], NINE, NINE, 0, newId) == EMPTY;
  }

  lemma OneHourNeverFits(t: Instant)
    ensures !Fits(OneHour(), NINE, t)
  {
    assert CurrentAd(OneHour(), t) == Ad("a", []);
    assert GapAt(OneHour(), t) == Minutes(60);
    assert MinuteOfDay(NINE + Minutes(60)) == 600;
  }

  /** Such states are reached at once: that campaign gets its first slot and never a
      second one. */
  lemma OneHourStarves(id: Uuid)
    ensures var s := RunFrom(EMPTY, [Plan([OneHour()], NINE, 0, (k: nat) => id)]);
      && LastReservationAt(s.reservations, "c", "ch") == Some(NINE) && Starved(s.reservations, OneHour(), "ch")
  {
    var cm, newId := OneHour(), (k: nat) => id;
    var e, r := Plan([cm], NINE, 0, newId), NewReservation(id, "c", "a", "ch", NINE);
    OneHourPlans(id);
    assert [cm][..0] == [] && [e][..0] == [] && [r][..0] == [];
    assert PlanCampaigns(EMPTY, [], NINE, 0, newId) == EMPTY;
    assert RunFrom(EMPTY, [e]) == Step(EMPTY, e);
    assert RunFrom(EMPTY, [e]).reservations == [r];
    forall t
      ensures !Fits(cm, NINE, t)
    {
      OneHourNeverFits(t);
    }
  }

  // ------------------------------------------------------------ the first day is the last

  function OpenLength(w: Window): int {
    DailyWindowBounds(0, w).1 - DailyWindowBounds(0, w).0
  }

  lemma StartOnTheClock(now: Instant, w: Window)
    ensures CurrentWindowStart(now, w) % DAY == Minutes(w.StartMin())
  {}

  /** Within a day of the window's start, an instant of the window lies before its end. */
  lemma WithinFirstDay(start: Instant, x: Instant, w: Window)
    requires w.StartMin() != w.EndMin() && start % DAY == Minutes(w.StartMin())
    requires start <= x < start + DAY && InDailyWindow(x, w)
    ensures x < start + OpenLength(w)
  {
    Clock(start);
    Clock(x);
    assert DayNumber(start) <= DayNumber(x) <= DayNumber(start) + 1;
    assert (w.StartMin() <= MinuteOfDay(x)) == (w.StartMin() * MINUTE <= x % DAY);
    assert (w.EndMin() <= MinuteOfDay(x)) == (w.EndMin() * MINUTE <= x % DAY);
  }

  /** If it is this campaign, it has this window, and no ad's cycle is longer than the
      closed part of the day. */
  predicate ShortCycles(c: Campaign, id: string, w: Window) {
    c.id == id ==>
      c.window == w && forall a | 0 <= a < |c.ads| :: CycleGap(c, c.ads[a]) <= DAY - OpenLength(w)
  }

  predicate AlwaysShort(events: seq<Event>, id: string, w: Window) {
    forall n | 0 <= n < |events| && events[n].Plan? ::
      forall c | 0 <= c < |events[n].campaigns| :: ShortCycles(events[n].campaigns[c], id, w)
  }

  lemma SlotInFirstDay(events: seq<Event>, rs: seq<Reservation>, f: nat, k: nat, w: Window)
    requires AllPlanned(events, rs) && f <= k < |rs| && SamePair(rs[f], rs[k]) && !HasEarlier(rs, f)
    requires AlwaysShort(events, rs[f].campaign, w) && w.StartMin() != w.EndMin()
    ensures rs[f].scheduledAt % DAY == Minutes(w.StartMin())
    ensures rs[f].scheduledAt <= rs[k].scheduledAt < rs[f].scheduledAt + OpenLength(w)
    decreases k
  {
    assert Made(events, rs, k);
    var n :| 0 <= n < |events| && PlannedBy(events[n], rs, k);
    var c := SlotOf(events[n], rs, k);
    assert ShortCycles(c, rs[f].campaign, w);
    CycleGapIsLong(c, CurrentAd(c, events[n].now));
    if k == f {
      StartOnTheClock(events[n].now, w);
    } else {
      assert Earlier(rs, f, k);
      var i :| Earlier(rs, i, k) && rs[i].scheduledAt + GapAt(c, events[n].now) == rs[k].scheduledAt;
      assert f <= i by {
        assert Earlier(rs, i, f) || f <= i;
      }
      SlotInFirstDay(events, rs, f, i, w);
      WithinFirstDay(rs[f].scheduledAt, rs[k].scheduledAt, w);
    }
  }

  lemma FirstOfPair(rs: seq<Reservation>, k: nat) returns (f: nat)
    requires k < |rs|
    ensures f <= k && SamePair(rs[f], rs[k]) && !HasEarlier(rs, f)
    decreases k
  {
    f := k;
    if HasEarlier(rs, k) {
      var i :| Earlier(rs, i, k);
      f := FirstOfPair(rs, i);
    }
  }

  /** With no cycle longer than the closed part of the day, all slots a channel ever gets
      lie in one daily window: the first day is the last. */
  lemma {:induction false} FirstDayIsTheLast(events: seq<Event>, i: nat, k: nat, w: Window)
    requires i < k < |RunFrom(EMPTY, events).reservations|
    requires SamePair(RunFrom(EMPTY, events).reservations[i], RunFrom(EMPTY, events).reservations[k])
    requires AlwaysShort(events, RunFrom(EMPTY, events).reservations[i].campaign, w) && w.StartMin() != w.EndMin()
    ensures RunFrom(EMPTY, events).reservations[k].scheduledAt <
      RunFrom(EMPTY, events).reservations[i].scheduledAt + OpenLength(w)
  {
    RunPlansSafely(events);
    var rs := RunFrom(EMPTY, events).reservations;
    var f := FirstOfPair(rs, i);
    SlotInFirstDay(events, rs, f, i, w);
    SlotInFirstDay(events, rs, f, k, w);
  }

  // -------------------------------------------------------------- when a pass can serve

  /** The next `count` IDs are not in use, and differ. */
  predicate FreshIds(rs: seq<Reservation>, newId: nat -> Uuid, count: nat) {
    && (forall n: nat, i | |rs| <= n < |rs| + count && 0 <= i < |rs| :: rs[i].id != newId(n))
    && forall m: nat, n: nat | |rs| <= m < n < |rs| + count :: newId(m) != newId(n)
  }

  /** us is rs and further rows with fresh IDs, none of them for the pair. */
  predicate Extends(rs: seq<Reservation>, us: seq<Reservation>, newId: nat -> Uuid) {
    rs <= us && forall k: nat | |rs| <= k < |us| :: us[k].id == newId(k)
  }

  lemma FreshStays(rs: seq<Reservation>, us: seq<Reservation>, newId: nat -> Uuid, count: nat)
    requires FreshIds(rs, newId, count) && Extends(rs, us, newId) && |us| < |rs| + count
    ensures IndexOf(us, newId(|us|)) == |us|
  {}

  lemma {:induction false} PairUntouched(rs: seq<Reservation>, us: seq<Reservation>, campaign: string, channel: string)
    requires rs <= us && NoNewRow(rs, us, campaign, channel)
    ensures LastReservationAt(us, campaign, channel) == LastReservationAt(rs, campaign, channel)
    ensures HasOpen(us, campaign, channel) <==> HasOpen(rs, campaign, channel)
    decreases |us|
  {
    if |us| > |rs| {
      PairUntouched(rs, us[..|us| - 1], campaign, channel);
      var before := us[..|us| - 1];
      if HasOpen(us, campaign, channel) {
        var i :| 0 <= i < |us| && us[i].For(campaign, channel) && us[i].Open();
        assert before[i] == us[i];
      }
      if HasOpen(before, campaign, channel) {
        var i :| 0 <= i < |before| && before[i].For(campaign, channel) && before[i].Open();
        assert before[i] == us[i];
      }
    } else {
      assert us == rs;
    }
  }

  predicate Served(rs: seq<Reservation>, qs: seq<Reservation>, campaign: string, channel: string) {
    exists k :: |rs| <= k < |qs| && qs[k].For(campaign, channel)
  }

  lemma ServesWhenDue(
    s: State, t: State, cm: Campaign, ad: Ad, channel: string, start: Instant, now: Instant, lead: int,
    newId: nat -> Uuid, count: nat)
    requires FreshIds(s.reservations, newId, count) && Extends(s.reservations, t.reservations, newId)
    requires |t.reservations| < |s.reservations| + count
    requires MayReserve(s.reservations, cm, ad, channel, start, now, lead)
    requires NoNewRow(s.reservations, t.reservations, cm.id, channel)
    ensures var u := PlanChannel(t, cm, ad, channel, start, now, lead, newId).reservations;
      |u| == |t.reservations| + 1 && u[|t.reservations|].For(cm.id, channel)
  {
    PairUntouched(s.reservations, t.reservations, cm.id, channel);
    FreshStays(s.reservations, t.reservations, newId, count);
  }

  lemma {:induction false} ChannelsServe(
    s: State, cm: Campaign, ad: Ad, channels: seq<string>, channel: string, start: Instant, now: Instant, lead: int,
    newId: nat -> Uuid, count: nat)
    requires FreshIds(s.reservations, newId, count) && |channels| <= count
    requires MayReserve(s.reservations, cm, ad, channel, start, now, lead)
    ensures var qs := PlanChannels(s, cm, ad, channels, start, now, lead, newId).reservations;
      && Extends(s.reservations, qs, newId) && |qs| <= |s.reservations| + |channels|
      && (channel in channels <==> Served(s.reservations, qs, cm.id, channel))
    decreases |channels|
  {
    if channels != [] {
      var most, last := channels[..|channels| - 1], channels[|channels| - 1];
      assert channel in channels <==> channel in most || channel == last by {
        assert channels == most + [last];
      }
      var t := PlanChannels(s, cm, ad, most, start, now, lead, newId);
      ChannelsServe(s, cm, ad, most, channel, start, now, lead, newId, count);
      OneMoreServes(s, t, cm, ad, last, channel, channel in most, start, now, lead, newId, count);
    }
  }

  lemma OneMoreServes(
    s: State, t: State, cm: Campaign, ad: Ad, last: string, channel: string, already: bool, start: Instant,
    now: Instant, lead: int, newId: nat -> Uuid, count: nat)
    requires FreshIds(s.reservations, newId, count) && Extends(s.reservations, t.reservations, newId)
    requires |t.reservations| < |s.reservations| + count
    requires MayReserve(s.reservations, cm, ad, channel, start, now, lead)
    requires already <==> Served(s.reservations, t.reservations, cm.id, channel)
    ensures var qs := PlanChannel(t, cm, ad, last, start, now, lead, newId).reservations;
      && Extends(s.reservations, qs, newId) && |qs| <= |t.reservations| + 1
      && (already || channel == last <==> Served(s.reservations, qs, cm.id, channel))
  {
    ServedStays(s.reservations, t, cm, ad, last, channel, start, now, lead, newId);
    if !already && channel == last {
      ServesWhenDue(s, t, cm, ad, channel, start, now, lead, newId, count);
      var qs := PlanChannel(t, cm, ad, last, start, now, lead, newId).reservations;
      assert qs[|t.reservations|].For(cm.id, channel);
    }
  }

  /** One more channel adds at most its own row. */
  lemma ServedStays(
    rs: seq<Reservation>, t: State, cm: Campaign, ad: Ad, last: string, channel: string, start: Instant, now: Instant,
    lead: int, newId: nat -> Uuid)
    requires Extends(rs, t.reservations, newId)
    ensures var qs := PlanChannel(t, cm, ad, last, start, now, lead, newId).reservations;
      && Extends(rs, qs, newId)
      && (Served(rs, t.reservations, cm.id, channel) ==> Served(rs, qs, cm.id, channel))
      && (Served(rs, qs, cm.id, channel) && last != channel ==> Served(rs, t.reservations, cm.id, channel))
  {}

  lemma {:induction false} ChannelsDoNotServe(
    s: State, t: State, cm: Campaign, ad: Ad, channels: seq<string>, channel: string, start: Instant, now: Instant,
    lead: int, newId: nat -> Uuid)
    requires t == PlanChannels(s, cm, ad, channels, start, now, lead, newId)
    requires !MayReserve(s.reservations, cm, ad, channel, start, now, lead)
    ensures s.reservations <= t.reservations && NoNewRow(s.reservations, t.reservations, cm.id, channel)
    decreases |channels|
  {
    if channels != [] {
      var most, last := channels[..|channels| - 1], channels[|channels| - 1];
      var u := PlanChannels(s, cm, ad, most, start, now, lead, newId);
      ChannelsDoNotServe(s, u, cm, ad, most, channel, start, now, lead, newId);
      OneMoreDoesNotServe(s, u, cm, ad, last, channel, start, now, lead, newId);
    }
  }

  lemma OneMoreDoesNotServe(
    s: State, u: State, cm: Campaign, ad: Ad, last: string, channel: string, start: Instant, now: Instant,
    lead: int, newId: nat -> Uuid)
    requires !MayReserve(s.reservations, cm, ad, channel, start, now, lead)
    requires s.reservations <= u.reservations && NoNewRow(s.reservations, u.reservations, cm.id, channel)
    ensures var qs := PlanChannel(u, cm, ad, last, start, now, lead, newId).reservations;
      s.reservations <= qs && NoNewRow(s.reservations, qs, cm.id, channel)
  {
    PairUntouched(s.reservations, u.reservations, cm.id, channel);
    if last == channel {
      assert NextDue(u.reservations, cm, ad, channel, start) == NextDue(s.reservations, cm, ad, channel, start);
      assert !MayReserve(u.reservations, cm, ad, channel, start, now, lead);
    }
  }

  /** Whether a pass at this time serves a channel: the campaign runs, the window is open,
      and the guards let the channel's next slot through. */
  predicate ServesNow(rs: seq<Reservation>, cm: Campaign, channel: string, now: Instant, lead: int) {
    && !(cm.endAt.Some? && now > cm.endAt.value) && cm.intervalMinutes >= 1 && cm.ads != [] && channel in cm.channels
    && InDailyWindow(now, cm.window)
    && MayReserve(rs, cm, CurrentAd(cm, now), channel, CurrentWindowStart(now, cm.window), now, lead)
  }

  lemma ServedNowIff(s: State, cm: Campaign, channel: string, now: Instant, lead: int, newId: nat -> Uuid)
    requires FreshIds(s.reservations, newId, |cm.channels|)
    ensures Served(s.reservations, PlanCampaign(s, cm, now, lead, newId).reservations, cm.id, channel) <==>
      ServesNow(s.reservations, cm, channel, now, lead)
  {
    if cm.ads != [] {
      var start, ad := CurrentWindowStart(now, cm.window), CurrentAd(cm, now);
      if MayReserve(s.reservations, cm, ad, channel, start, now, lead) {
        ChannelsServe(s, cm, ad, cm.channels, channel, start, now, lead, newId, |cm.channels|);
      } else {
        ChannelsDoNotServe(s, PlanChannels(s, cm, ad, cm.channels, start, now, lead, newId), cm, ad, cm.channels,
                           channel, start, now, lead, newId);
      }
    }
  }

  /** The days repeat: window, start of the window and current ad. */
  lemma {:induction false} DayShift(cm: Campaign, t: Instant, n: nat)
    ensures var u := t + n * DAY;
      && InDailyWindow(u, cm.window) == InDailyWindow(t, cm.window) && GapAt(cm, u) == GapAt(cm, t)
  {
    var u := t + n * DAY;
    DayNumberShift(t, n);
    Clock(t);
    Clock(u);
    assert u % DAY == t % DAY;
    assert MinuteOfDay(u) == MinuteOfDay(t);
    assert CurrentWindowStart(u, cm.window) == CurrentWindowStart(t, cm.window) + n * DAY;
  }

  ghost predicate ServedSomeTime(s: State, cm: Campaign, channel: string, lead: int, newId: nat -> Uuid) {
    exists now :: Served(s.reservations, PlanCampaign(s, cm, now, lead, newId).reservations, cm.id, channel)
  }

  /** A channel that has been served and has nothing open is served again by a pass at
      some time, of a campaign without end date, if and only if at some time in the window
      the current ad's cycle leads from its last slot into the window. */
  lemma {:induction false} ServedSomeTimeIff(s: State, cm: Campaign, channel: string, lead: int, newId: nat -> Uuid)
    requires FreshIds(s.reservations, newId, |cm.channels|) && !HasOpen(s.reservations, cm.id, channel)
    requires LastReservationAt(s.reservations, cm.id, channel).Some?
    requires channel in cm.channels && cm.ads != [] && cm.intervalMinutes >= 1 && cm.endAt == None
    ensures ServedSomeTime(s, cm, channel, lead, newId) <==> !Starved(s.reservations, cm, channel)
  {
    var last := LastReservationAt(s.reservations, cm.id, channel).value;
    if !Starved(s.reservations, cm, channel) {
      var t :| Fits(cm, last, t);
      var n: nat := if last + GapAt(cm, t) > t then last + GapAt(cm, t) - t else 0;
      DayShift(cm, t, n);
      ServesOnceDue(s.reservations, cm, channel, t + n * DAY, lead);
      ServedNowIff(s, cm, channel, t + n * DAY, lead, newId);
    }
    if ServedSomeTime(s, cm, channel, lead, newId) {
      var now :| Served(s.reservations, PlanCampaign(s, cm, now, lead, newId).reservations, cm.id, channel);
      ServedNowIff(s, cm, channel, now, lead, newId);
      FitsWhenServed(s.reservations, cm, channel, now, lead);
    }
  }

  lemma ServesOnceDue(rs: seq<Reservation>, cm: Campaign, channel: string, now: Instant, lead: int)
    requires !HasOpen(rs, cm.id, channel) && LastReservationAt(rs, cm.id, channel).Some?
    requires channel in cm.channels && cm.ads != [] && cm.intervalMinutes >= 1 && cm.endAt == None
    requires var last := LastReservationAt(rs, cm.id, channel).value;
      Fits(cm, last, now) && now >= last + GapAt(cm, now)
    ensures ServesNow(rs, cm, channel, now, lead)
  {}

  lemma FitsWhenServed(rs: seq<Reservation>, cm: Campaign, channel: string, now: Instant, lead: int)
    requires LastReservationAt(rs, cm.id, channel).Some? && ServesNow(rs, cm, channel, now, lead)
    ensures Fits(cm, LastReservationAt(rs, cm.id, channel).value, now)
  {}
}
