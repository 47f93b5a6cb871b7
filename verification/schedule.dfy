/** Daily windows and ad rotation (admanager-bot/internal/models/schedule.go).
    An instant is nanoseconds of local wall time since some midnight; days are
    all 24 hours long. */
module Schedule {

  type Instant = int

  const MINUTE: int := 60_000_000_000
  const MINUTES_PER_DAY: int := 1440
  const DAY: int := 86_400_000_000_000

  /** time.Duration(n) * time.Minute. */
  function Minutes(n: int): int {
    n * 60_000_000_000
  }

  type Hour = h: int | 0 <= h < 24 witness 0
  type Minute = m: int | 0 <= m < 60 witness 0

  /** A daily window's start and end clock. */
  datatype Window = Window(startHour: Hour, startMinute: Minute, endHour: Hour, endMinute: Minute) {
    function StartMin(): int {
      startHour * 60 + startMinute
    }

    function EndMin(): int {
      endHour * 60 + endMinute
    }
  }

  // -------------------------------------------------------------- Go arithmetic

  /** Go's `/`: truncates toward zero. */
  function TruncDiv(a: int, b: int): int
    requires b > 0
  {
    if a >= 0 then a / b else -((-a) / b)
  }

  /** Go's `%`: takes the sign of the dividend. */
  function TruncMod(a: int, b: int): int
    requires b > 0
  {
    a - b * TruncDiv(a, b)
  }

  // ------------------------------------------------------------------- schedule

  function DayNumber(t: Instant): int {
    t / DAY
  }

  /** now.Hour()*60 + now.Minute(). */
  function MinuteOfDay(t: Instant): (m: int)
    ensures 0 <= m < MINUTES_PER_DAY
  {
    (t % DAY) / MINUTE
  }

  function ClockOnDay(day: Instant, hour: Hour, minute: Minute): Instant {
    DayNumber(day) * DAY + (hour * 60 + minute) * MINUTE
  }

  predicate InDailyWindow(now: Instant, w: Window) {
    var cur := MinuteOfDay(now);
    if w.StartMin() == w.EndMin() then true
    else if w.StartMin() < w.EndMin() then w.StartMin() <= cur < w.EndMin()
    else cur >= w.StartMin() || cur < w.EndMin()
  }

  function CurrentWindowStart(now: Instant, w: Window): Instant {
    var todayStart := ClockOnDay(now, w.startHour, w.startMinute);
    if w.StartMin() >= w.EndMin() && MinuteOfDay(now) < w.EndMin() then todayStart - DAY
    else todayStart
  }

  function DailyWindowBounds(day: Instant, w: Window): (Instant, Instant) {
    var start := ClockOnDay(day, w.startHour, w.startMinute);
    var end := ClockOnDay(day, w.endHour, w.endMinute);
    (start, if end <= start then end + DAY else end)
  }

  function RotationIndex(elapsedMinutes: int, rotationMinutes: int, numAds: int): (i: int)
    ensures numAds > 0 ==> 0 <= i < numAds
    ensures numAds <= 0 ==> i == 0
  {
    if numAds <= 0 then 0
    else if rotationMinutes <= 0 then 0
    else
      var idx := TruncMod(TruncDiv(elapsedMinutes, rotationMinutes), numAds);
      TruncModRange(TruncDiv(elapsedMinutes, rotationMinutes), numAds);
      if idx < 0 then idx + numAds else idx
  }

  /** int(now.Sub(start).Minutes()) for an instant not before start. */
  function ElapsedMinutes(now: Instant, start: Instant): int {
    TruncDiv(now - start, MINUTE)
  }

  lemma TruncModRange(a: int, b: int)
    requires b > 0
    ensures -b < TruncMod(a, b) < b
    ensures a >= 0 ==> TruncMod(a, b) == a % b
  {}

  // ---------------------------------------------------------------- windows agree

  predicate Within(now: Instant, bounds: (Instant, Instant)) {
    bounds.0 <= now < bounds.1
  }

  /** The instant as a day number and the time into that day. */
  lemma Clock(t: Instant)
    ensures t == DayNumber(t) * DAY + t % DAY && 0 <= t % DAY < DAY
    ensures forall m: int :: m * MINUTE <= t % DAY <==> m <= MinuteOfDay(t)
  {}

  lemma DayNumberShift(t: Instant, k: int)
    ensures DayNumber(t + k * DAY) == DayNumber(t) + k
  {}

  /** An instant is in the daily window exactly when it lies in the interval of its
      own day or of the day before. */
  lemma WindowMeansBounds(now: Instant, w: Window)
    ensures InDailyWindow(now, w) <==>
      Within(now, DailyWindowBounds(now, w)) || Within(now, DailyWindowBounds(now - DAY, w))
  {
    Clock(now);
    DayNumberShift(now, -1);
    assert now + -1 * DAY == now - DAY;
    assert (w.StartMin() <= MinuteOfDay(now)) == (w.StartMin() * MINUTE <= now % DAY);
    assert (w.EndMin() <= MinuteOfDay(now)) == (w.EndMin() * MINUTE <= now % DAY);
  }

  /** In the window, the current start is the start of the one daily interval, over
      all days, that holds the instant; fewer than 1440 minutes have elapsed. */
  lemma CurrentStartIsTheIntervals(now: Instant, w: Window)
    requires InDailyWindow(now, w)
    ensures exists day: Instant ::
      Within(now, DailyWindowBounds(day, w)) && DailyWindowBounds(day, w).0 == CurrentWindowStart(now, w)
    ensures forall day: Instant :: Within(now, DailyWindowBounds(day, w)) ==>
      DailyWindowBounds(day, w).0 == CurrentWindowStart(now, w)
    ensures 0 <= ElapsedMinutes(now, CurrentWindowStart(now, w)) < MINUTES_PER_DAY
  {
    Clock(now);
    DayNumberShift(now, -1);
    assert now + -1 * DAY == now - DAY;
    assert (w.StartMin() <= MinuteOfDay(now)) == (w.StartMin() * MINUTE <= now % DAY);
    assert (w.EndMin() <= MinuteOfDay(now)) == (w.EndMin() * MINUTE <= now % DAY);
    WindowMeansBounds(now, w);
    var day := if w.StartMin() >= w.EndMin() && MinuteOfDay(now) < w.EndMin() then now - DAY else now;
    assert DailyWindowBounds(day, w).0 == CurrentWindowStart(now, w);
    assert Within(now, DailyWindowBounds(day, w));
    forall other: Instant | Within(now, DailyWindowBounds(other, w))
      ensures DailyWindowBounds(other, w).0 == CurrentWindowStart(now, w)
    {
      SameInterval(now, w, day, other);
    }
  }

  /** Intervals of different days are disjoint. */
  lemma SameInterval(now: Instant, w: Window, a: Instant, b: Instant)
    requires Within(now, DailyWindowBounds(a, w)) && Within(now, DailyWindowBounds(b, w))
    ensures DailyWindowBounds(a, w).0 == DailyWindowBounds(b, w).0
  {}

  // ------------------------------------------------------------------ fair rotation

  /** How many minutes of [from, to) show ad i. */
  function MinutesShown(from: nat, until: nat, rotation: int, numAds: int, i: int): nat
    decreases until
  {
    if until <= from then 0
    else
      MinutesShown(from, until - 1, rotation, numAds, i) + Shown(until - 1, rotation, numAds, i)
  }

  function Shown(minute: nat, rotation: int, numAds: int, i: int): nat {
    if RotationIndex(minute, rotation, numAds) == i then 1 else 0
  }

  lemma {:induction false} ShownSplits(from: nat, mid: nat, until: nat, rotation: int, numAds: int, i: int)
    requires from <= mid <= until
    ensures MinutesShown(from, until, rotation, numAds, i) ==
      MinutesShown(from, mid, rotation, numAds, i) + MinutesShown(mid, until, rotation, numAds, i)
    decreases until
  {
    if mid < until {
      ShownSplits(from, mid, until - 1, rotation, numAds, i);
    }
  }

  /** One slot of `rotation` minutes shows one ad: the slot number modulo the ads. */
  lemma {:induction false} SlotShowsOneAd(slot: nat, upTo: nat, rotation: int, numAds: int, i: int)
    requires rotation > 0 && numAds > 0 && upTo <= rotation
    ensures MinutesShown(slot * rotation, slot * rotation + upTo, rotation, numAds, i) ==
      if slot % numAds == i then upTo else 0
    decreases upTo
  {
    if upTo > 0 {
      var m := slot * rotation + upTo - 1;
      SlotShowsOneAd(slot, upTo - 1, rotation, numAds, i);
      assert m / rotation == slot by {
        DivideExact(slot, upTo - 1, rotation);
      }
      TruncModRange(slot, numAds);
    }
  }

  lemma DivideExact(q: nat, r: nat, b: int)
    requires 0 <= r < b
    ensures (q * b + r) / b == q
  {
    var n := q * b + r;
    var d := n / b - q;
    assert n == b * (n / b) + n % b;
    assert b * d == r - n % b;
    assert d >= 1 ==> b * d >= b;
    assert d <= -1 ==> b * d <= -b;
  }

  lemma {:induction false} OneMoreSlot(first: nat, slot: nat, rotation: nat, numAds: nat, i: int)
    requires rotation > 0 && numAds > 0 && first <= slot
    ensures MinutesShown(first * rotation, (slot + 1) * rotation, rotation, numAds, i) ==
      MinutesShown(first * rotation, slot * rotation, rotation, numAds, i) +
      if slot % numAds == i then rotation else 0
  {
    Distribute(slot, rotation);
    MultiplyMonotone(first, slot, rotation);
    ShownSplits(first * rotation, slot * rotation, slot * rotation + rotation, rotation, numAds, i);
    SlotShowsOneAd(slot, rotation, rotation, numAds, i);
  }

  lemma SlotResidue(first: nat, r: nat, numAds: nat)
    requires r < numAds && first % numAds == 0
    ensures (first + r) % numAds == r
  {
    ModuloExact(first / numAds, r, numAds);
  }

  /** The first n slots of the block that starts at an aligned slot. */
  lemma {:induction false} SlotsOfBlock(first: nat, n: nat, rotation: nat, numAds: nat, i: int)
    requires rotation > 0 && 0 <= i < numAds && n <= numAds && first % numAds == 0
    ensures MinutesShown(first * rotation, (first + n) * rotation, rotation, numAds, i) ==
      if i < n then rotation else 0
    decreases n
  {
    if n > 0 {
      SlotsOfBlock(first, n - 1, rotation, numAds, i);
      OneMoreSlot(first, first + (n - 1), rotation, numAds, i);
      SlotResidue(first, n - 1, numAds);
      assert first + (n - 1) + 1 == first + n;
    }
  }

  lemma Distribute(q: nat, b: nat)
    ensures (q + 1) * b == q * b + b
  {}

  lemma MultiplyMonotone(p: nat, q: nat, b: nat)
    requires p <= q
    ensures p * b <= q * b
  {}

  lemma ModuloExact(q: nat, r: nat, b: nat)
    requires 0 <= r < b
    ensures (q * b + r) % b == r
  {
    DivideExact(q, r, b);
    var n := q * b + r;
    assert n == b * (n / b) + n % b;
  }

  /** Every aligned block of numAds*rotation minutes gives every ad exactly
      `rotation` minutes. */
  lemma {:induction false} RotationIsFair(k: nat, rotation: nat, numAds: nat, i: int)
    requires rotation > 0 && 0 <= i < numAds
    ensures MinutesShown(k * numAds * rotation, (k + 1) * numAds * rotation, rotation, numAds, i) == rotation
  {
    ModuloExact(k, 0, numAds);
    SlotsOfBlock(k * numAds, numAds, rotation, numAds, i);
    Distribute(k, numAds);
  }

  lemma TurnIndex(elapsed: int, q: int, r: nat, rotation: nat, numAds: nat)
    requires q >= 0 && rotation > 0 && r < numAds && q % numAds == r
    requires TruncDiv(elapsed, rotation) == q || TruncDiv(elapsed, rotation) == -q
    ensures RotationIndex(elapsed, rotation, numAds) ==
      if TruncDiv(elapsed, rotation) == q || r == 0 then r else numAds - r
  {
    TruncModRange(q, numAds);
    TruncModOpposite(q, numAds);
  }

  lemma TruncModOpposite(a: int, b: int)
    requires a >= 0 && b > 0
    ensures TruncMod(-a, b) == -TruncMod(a, b)
  {
    assert b * -(a / b) == -(b * (a / b));
  }

  lemma TurnNumber(e: int, q: int, x: nat, rotation: nat)
    requires e >= 0 && q >= 0 && x < rotation && e == q * rotation + x
    ensures TruncDiv(e, rotation) == q && TruncDiv(-e, rotation) == -q
  {
    DivideExact(q, x, rotation);
  }

  /** And in their order: in each round ad k has the k-th share of the minutes. */
  lemma RotationKeepsOrder(round: nat, k: nat, x: nat, rotation: nat, numAds: nat)
    requires k < numAds && x < rotation
    ensures RotationIndex((round * numAds + k) * rotation + x, rotation, numAds) == k
  {
    var q: nat := round * numAds + k;
    var e: nat := q * rotation + x;
    TurnNumber(e, q, x, rotation);
    ModuloExact(round, k, numAds);
    TurnIndex(e, q, k, rotation, numAds);
  }

  /** Before the start the order runs backwards, from the first ad. */
  lemma RotationBeforeStart(round: nat, k: nat, x: nat, rotation: nat, numAds: nat)
    requires k < numAds && x < rotation
    ensures RotationIndex(-((round * numAds + k) * rotation + x), rotation, numAds) == if k == 0 then 0 else numAds - k
  {
    var q: nat := round * numAds + k;
    var e: int := q * rotation + x;
    TurnNumber(e, q, x, rotation);
    ModuloExact(round, k, numAds);
    TurnIndex(-e, q, k, rotation, numAds);
  }
}
