/** The in-memory sliding-window limiter (apimanager/internal/middleware/ratelimit.go).
    Instants are integers in nanoseconds from a clock that never steps back. */
module RateLimit {

  const WINDOW: int := 60_000_000_000

  /** The instants strictly after the cutoff, in order. */
  function After(times: seq<int>, cutoff: int): seq<int> {
    if times == [] then []
    else
      var last := times[|times| - 1];
      After(times[..|times| - 1], cutoff) + if last > cutoff then [last] else []
  }

  function Stored(counts: map<string, seq<int>>, key: string): seq<int> {
    if key in counts then counts[key] else []
  }

  /** One call: what the limiter answers and the table it leaves. */
  function Decide(counts: map<string, seq<int>>, max: int, key: string, now: int): (map<string, seq<int>>, bool) {
    var recent := After(Stored(counts, key), now - WINDOW);
    if |recent| >= max then (counts, false) else (counts[key := recent + [now]], true)
  }

  class SimpleInMemoryLimiter {
    var counts: map<string, seq<int>>
    const maxPerMin: int

    constructor (maxPerMin: int)
      ensures counts == map[] && this.maxPerMin == maxPerMin
    {
      counts := map[];
      this.maxPerMin := maxPerMin;
    }

    method Allow(key: string, now: int) returns (ok: bool)
      modifies this
      ensures (counts, ok) == Decide(old(counts), maxPerMin, key, now)
    {
      var cutoff := now - WINDOW;
      var recent := [];
      var stored := Stored(counts, key);
      for i := 0 to |stored|
        invariant recent == After(stored[..i], cutoff)
      {
        assert stored[..i + 1][..i] == stored[..i];
        if stored[i] > cutoff {
          recent := recent + [stored[i]];
        }
      }
      assert stored[..|stored|] == stored;
      if |recent| >= maxPerMin {
        return false;
      }
      counts := counts[key := recent + [now]];
      ok := true;
    }
  }

  // ---------------------------------------------------------------- whole runs

  datatype Call = Call(key: string, now: int)

  predicate ClockGoesForward(calls: seq<Call>) {
    forall i, j | 0 <= i < j < |calls| :: calls[i].now <= calls[j].now
  }

  function Run(calls: seq<Call>, max: int): map<string, seq<int>> {
    if calls == [] then map[]
    else
      var last := calls[|calls| - 1];
      Decide(Run(calls[..|calls| - 1], max), max, last.key, last.now).0
  }

  /** The limiter's answer to call i. */
  function Answer(calls: seq<Call>, max: int, i: nat): bool
    requires i < |calls|
  {
    Decide(Run(calls[..i], max), max, calls[i].key, calls[i].now).1
  }

  /** The reference limiter never forgets: every admitted instant of a key. */
  function Admitted(calls: seq<Call>, max: int, key: string): seq<int> {
    if calls == [] then []
    else
      var init, last := calls[..|calls| - 1], calls[|calls| - 1];
      var before := Admitted(init, max, key);
      if Takes(before, max, last, key) then before + [last.now] else before
  }

  /** The call is for this key, and the key's last minute has room for it. */
  predicate Takes(before: seq<int>, max: int, call: Call, key: string) {
    call.key == key && |After(before, call.now - WINDOW)| < max
  }

  function ReferenceAnswer(calls: seq<Call>, max: int, i: nat): bool
    requires i < |calls|
  {
    |After(Admitted(calls[..i], max, calls[i].key), calls[i].now - WINDOW)| < max
  }

  // -------------------------------------------------------------------- proofs

  lemma {:induction false} AfterAppend(s: seq<int>, x: int, c: int)
    ensures After(s + [x], c) == After(s, c) + if x > c then [x] else []
  {}

  /** Pruning at an earlier cutoff is invisible at a later one. */
  lemma {:induction false} AfterAfter(s: seq<int>, c: int, d: int)
    requires c <= d
    ensures After(After(s, c), d) == After(s, d)
  {
    if s != [] {
      var init, last := s[..|s| - 1], s[|s| - 1];
      AfterAfter(init, c, d);
      if last > c {
        AfterAppend(After(init, c), last, d);
      } else {
        assert After(init, c) + [] == After(init, c);
      }
    }
  }

  /** The stored list and the full history agree at every cutoff a later call can use. */
  lemma {:induction false} PrunedAgreesWithFull(calls: seq<Call>, max: int, key: string, now: int, d: int)
    requires ClockGoesForward(calls) && NoneAfter(calls, now)
    requires d >= now - WINDOW
    ensures After(Stored(Run(calls, max), key), d) == After(Admitted(calls, max, key), d)
  {
    if calls != [] {
      var init, last := calls[..|calls| - 1], calls[|calls| - 1];
      LastIsLatest(calls, now);
      PrunedAgreesWithFull(init, max, key, now, d);
      PrunedAgreesWithFull(init, max, key, last.now, last.now - WINDOW);
      var store, full := Run(init, max), Admitted(init, max, key);
      OneDecision(store, max, last, key);
      OneCallAgrees(Stored(store, key), Stored(Run(calls, max), key), full, max, last, key, d);
    }
  }

  /** What one call makes of one key's stored list. */
  lemma OneDecision(store: map<string, seq<int>>, max: int, call: Call, key: string)
    ensures var pruned := Stored(store, key);
      Stored(Decide(store, max, call.key, call.now).0, key) ==
        if Takes(pruned, max, call, key) then After(pruned, call.now - WINDOW) + [call.now] else pruned
  {}

  predicate NoneAfter(calls: seq<Call>, now: int) {
    forall c | c in calls :: c.now <= now
  }

  /** One more call keeps the stored list and the history alike at a later cutoff. */
  lemma {:induction false} OneCallAgrees(
    pruned: seq<int>, pruned': seq<int>, full: seq<int>, max: int, call: Call, key: string, d: int)
    requires d >= call.now - WINDOW && After(pruned, d) == After(full, d)
    requires After(pruned, call.now - WINDOW) == After(full, call.now - WINDOW)
    requires pruned' ==
      if Takes(pruned, max, call, key) then After(pruned, call.now - WINDOW) + [call.now] else pruned
    ensures After(pruned', d) == if Takes(full, max, call, key) then After(full + [call.now], d) else After(full, d)
  {
    if Takes(full, max, call, key) {
      AdmittedAgrees(pruned, full, call.now - WINDOW, call.now, d);
    }
  }

  /** Pruning at the cutoff c and then adding an instant shows at d as adding it alone. */
  lemma {:induction false} AdmittedAgrees(pruned: seq<int>, full: seq<int>, c: int, now: int, d: int)
    requires c <= d && After(pruned, d) == After(full, d)
    ensures After(After(pruned, c) + [now], d) == After(full + [now], d)
  {
    AfterAppend(After(pruned, c), now, d);
    AfterAppend(full, now, d);
    AfterAfter(pruned, c, d);
  }

  lemma LastIsLatest(calls: seq<Call>, now: int)
    requires ClockGoesForward(calls) && calls != [] && NoneAfter(calls, now)
    ensures var init, last := calls[..|calls| - 1], calls[|calls| - 1];
      ClockGoesForward(init) && NoneAfter(init, last.now) && NoneAfter(init, now) && last.now <= now
  {}

  /** The pruned limiter decides every call as the one that keeps the full history. */
  lemma {:induction false} DecidesAsFullHistory(calls: seq<Call>, max: int, i: nat)
    requires ClockGoesForward(calls) && i < |calls|
    ensures Answer(calls, max, i) == ReferenceAnswer(calls, max, i)
  {
    PrunedAgreesWithFull(calls[..i], max, calls[i].key, calls[i].now, calls[i].now - WINDOW);
    SameDecision(Run(calls[..i], max), Admitted(calls[..i], max, calls[i].key), max, calls[i].key, calls[i].now);
  }

  lemma SameDecision(store: map<string, seq<int>>, full: seq<int>, max: int, key: string, now: int)
    requires After(Stored(store, key), now - WINDOW) == After(full, now - WINDOW)
    ensures Decide(store, max, key, now).1 <==> |After(full, now - WINDOW)| < max
  {}

  /** The admitted instants of a key within [from, until). */
  function Inside(times: seq<int>, from: int, until: int): seq<int> {
    if times == [] then []
    else
      var last := times[|times| - 1];
      Inside(times[..|times| - 1], from, until) + if from <= last < until then [last] else []
  }

  /** What lies in a minute that ends after the latest instant is recent there. */
  lemma {:induction false} InsideIsRecent(times: seq<int>, from: int, until: int, cutoff: int)
    requires cutoff < from
    ensures |Inside(times, from, until)| <= |After(times, cutoff)|
  {
    if times != [] {
      InsideIsRecent(times[..|times| - 1], from, until, cutoff);
    }
  }

  /** Every one-minute half-open interval holds at most maxPerMin calls of a key that
      the reference admits. */
  lemma {:induction false} MinuteHoldsAtMostMax(calls: seq<Call>, max: nat, key: string, from: int)
    ensures |Inside(Admitted(calls, max, key), from, from + WINDOW)| <= max
  {
    if calls != [] {
      var init, last := calls[..|calls| - 1], calls[|calls| - 1];
      var before := Admitted(init, max, key);
      MinuteHoldsAtMostMax(init, max, key, from);
      if last.key == key && |After(before, last.now - WINDOW)| < max {
        assert (before + [last.now])[..|before|] == before;
        if from <= last.now < from + WINDOW {
          InsideIsRecent(before, from, from + WINDOW, last.now - WINDOW);
        }
      }
    }
  }

  /** The instants of a key that the limiter itself has let through. */
  function Allowed(calls: seq<Call>, max: int, key: string): seq<int> {
    if calls == [] then []
    else
      var n := |calls| - 1;
      Allowed(calls[..n], max, key)
      + if calls[n].key == key && Answer(calls, max, n) then [calls[n].now] else []
  }

  lemma {:induction false} AllowedIsAdmitted(calls: seq<Call>, max: int, key: string)
    requires ClockGoesForward(calls)
    ensures Allowed(calls, max, key) == Admitted(calls, max, key)
  {
    if calls != [] {
      var n := |calls| - 1;
      AllowedIsAdmitted(calls[..n], max, key);
      DecidesAsFullHistory(calls, max, n);
      AdmittedNext(calls, max, key);
    }
  }

  lemma {:induction false} AdmittedNext(calls: seq<Call>, max: int, key: string)
    requires calls != []
    ensures var n := |calls| - 1;
      Admitted(calls, max, key) == Admitted(calls[..n], max, key) +
        if calls[n].key == key && ReferenceAnswer(calls, max, n) then [calls[n].now] else []
  {}

  /** Pruning included: no minute lets through more than maxPerMin calls of a key. */
  lemma LimitHolds(calls: seq<Call>, max: nat, key: string, from: int)
    requires ClockGoesForward(calls)
    ensures |Inside(Allowed(calls, max, key), from, from + WINDOW)| <= max
  {
    AllowedIsAdmitted(calls, max, key);
    MinuteHoldsAtMostMax(calls, max, key, from);
  }

  // ------------------------------------------------------------- the answer itself

  /** How many of the first n calls asked for this key after the cutoff and were let
      through. */
  function LetThrough(calls: seq<Call>, max: int, key: string, n: nat, cutoff: int): nat
    requires n <= |calls|
  {
    if n == 0 then 0
    else
      LetThrough(calls, max, key, n - 1, cutoff) +
        if calls[n - 1].key == key && calls[n - 1].now > cutoff && Answer(calls, max, n - 1) then 1 else 0
  }

  lemma AnswerOfPrefix(calls: seq<Call>, max: int, n: nat, j: nat)
    requires j < n <= |calls|
    ensures Answer(calls[..n], max, j) == Answer(calls, max, j)
  {
    assert calls[..n][..j] == calls[..j];
  }

  lemma AllowedNext(calls: seq<Call>, max: int, key: string, n: nat, cutoff: int)
    requires n < |calls|
    ensures |After(Allowed(calls[..n + 1], max, key), cutoff)| == |After(Allowed(calls[..n], max, key), cutoff)| +
      if calls[n].key == key && calls[n].now > cutoff && Answer(calls, max, n) then 1 else 0
  {
    var most := calls[..n + 1];
    assert most[..n] == calls[..n];
    AnswerOfPrefix(calls, max, n + 1, n);
    var before := Allowed(calls[..n], max, key);
    if calls[n].key == key && Answer(calls, max, n) {
      assert Allowed(most, max, key) == before + [calls[n].now];
      AfterAppend(before, calls[n].now, cutoff);
    } else {
      assert before + [] == before && Allowed(most, max, key) == before;
    }
  }

  lemma {:induction false} AllowedCounts(calls: seq<Call>, max: int, key: string, n: nat, cutoff: int)
    requires n <= |calls|
    ensures LetThrough(calls, max, key, n, cutoff) == |After(Allowed(calls[..n], max, key), cutoff)|
    decreases n
  {
    if n > 0 {
      AllowedCounts(calls, max, key, n - 1, cutoff);
      AllowedNext(calls, max, key, n - 1, cutoff);
    }
  }

  /** With a clock that does not step back, a call is let through if and only if fewer than
      the limit of the earlier calls of its key have been within the last minute. */
  lemma {:induction false} LetThroughIff(calls: seq<Call>, max: int, i: nat)
    requires ClockGoesForward(calls) && i < |calls|
    ensures Answer(calls, max, i) <==>
      LetThrough(calls, max, calls[i].key, i, calls[i].now - 60_000_000_000) < max
  {
    DecidesAsFullHistory(calls, max, i);
    AllowedIsAdmitted(calls[..i], max, calls[i].key);
    AllowedCounts(calls, max, calls[i].key, i, calls[i].now - WINDOW);
  }
}
