/**
 The sliding-window rate limiter: a sorted set of admission times, pruned on every call and dropped
 by its expiry, that decides as if it counted the whole history.
 */
module SlidingWindow {
  import opened Prelude

  /** Nanoseconds since the Unix epoch. */
  type Nanos = nat

  const SECOND: int := 1_000_000_000

  function Sec(t: Nanos): nat {
    t / SECOND
  }

  /** The Redis key: admission times with their scores, and the instant from which it may vanish. */
  datatype Window = Window(entries: map<Nanos, nat>, deadline: Option<int>)

  const EMPTY := Window(map[], None)

  /** One call; `vanish` asks that the key be gone by now, if its deadline allows. */
  datatype Call = Call(now: Nanos, vanish: bool)

  /** What Redis still holds at the call: the key may be gone at any moment from its deadline on. */
  function Surviving(w: Window, c: Call): map<Nanos, nat> {
    if w.deadline.Some? && c.now >= w.deadline.value && c.vanish then map[] else w.entries
  }

  function Pruned(entries: map<Nanos, nat>, windowStart: int): map<Nanos, nat> {
    map t | t in entries && !(0 <= entries[t] <= windowStart) :: entries[t]
  }

  function Scored(entries: map<Nanos, nat>, low: int, high: int): set<Nanos> {
    set t | t in entries && low <= entries[t] <= high
  }

  class RateLimit {
    const maxRequests: int
    const seconds: nat
    var entries: map<Nanos, nat>
    var deadline: Option<int>

    constructor (maxRequests: int, seconds: nat)
      requires seconds >= 1
      ensures this.maxRequests == maxRequests && this.seconds == seconds && State() == EMPTY
    {
      this.maxRequests, this.seconds := maxRequests, seconds;
      entries, deadline := map[], None;
    }

    ghost function State(): Window
      reads this
    {
      Window(entries, deadline)
    }

    method CheckRateLimit(c: Call) returns (allowed: bool)
      modifies this
      ensures allowed == Admits(old(State()), c, maxRequests, seconds)
      ensures State() == Next(old(State()), c, maxRequests, seconds)
    {
      if deadline.Some? && c.now >= deadline.value && c.vanish {
        entries := map[];
      }
      var windowStart := Sec(c.now) - seconds;
      entries := Pruned(entries, windowStart);
      var count := |Scored(entries, windowStart, Sec(c.now))|;
      allowed := count < maxRequests;
      if allowed {
        entries := entries[c.now := Sec(c.now)];
      }
      // Redis keeps an empty sorted set as no key at all, which has nothing to expire.
      deadline := if |entries| == 0 then None else Some(c.now + seconds * SECOND);
    }
  }

  function Admits(w: Window, c: Call, max: int, seconds: nat): bool {
    var start := Sec(c.now) - seconds;
    |Scored(Pruned(Surviving(w, c), start), start, Sec(c.now))| < max
  }

  function Next(w: Window, c: Call, max: int, seconds: nat): Window {
    var kept := Pruned(Surviving(w, c), Sec(c.now) - seconds);
    var entries := if Admits(w, c, max, seconds) then kept[c.now := Sec(c.now)] else kept;
    Window(entries, if |entries| == 0 then None else Some(c.now + seconds * SECOND))
  }

  // ---------------------------------------------------------------- runs

  function Run(calls: seq<Call>, max: int, seconds: nat): Window {
    if calls == [] then EMPTY
    else Next(Run(calls[..|calls| - 1], max, seconds), calls[|calls| - 1], max, seconds)
  }

  /** The times the limiter admitted. */
  function Admitted(calls: seq<Call>, max: int, seconds: nat): set<Nanos> {
    if calls == [] then {}
    else
      var front, last := calls[..|calls| - 1], calls[|calls| - 1];
      Admitted(front, max, seconds) +
      if Admits(Run(front, max, seconds), last, max, seconds) then {last.now} else {}
  }

  /** The admissions in the `seconds` whole seconds up to and including second `s`. */
  function Within(history: set<Nanos>, s: int, seconds: nat): set<Nanos> {
    set t | t in history && s - seconds < Sec(t) <= s
  }

  /** The reference: nothing is pruned, nothing expires. */
  function Reference(calls: seq<Call>, max: int, seconds: nat): set<Nanos> {
    if calls == [] then {}
    else
      var history, now := Reference(calls[..|calls| - 1], max, seconds), calls[|calls| - 1].now;
      if |Within(history, Sec(now), seconds)| < max then history + {now} else history
  }

  /** Every call gets its own member name: the clock moves between any two calls. */
  predicate Ticking(calls: seq<Call>) {
    forall i, j :: 0 <= i < j < |calls| ==> calls[i].now < calls[j].now
  }

  /** The set holds every admission that can still count, and nothing that was not admitted. */
  predicate Agrees(w: Window, history: set<Nanos>, last: Nanos, seconds: nat) {
    && w.entries.Keys <= history
    && (forall t :: t in w.entries ==> w.entries[t] == Sec(t))
    && (forall t :: t in history ==> t <= last && (Sec(t) > Sec(last) - seconds ==> t in w.entries))
    && (w.deadline.Some? ==> w.deadline.value == last + seconds * SECOND)
  }

  lemma SecMonotone(a: Nanos, b: Nanos, seconds: nat)
    ensures a <= b ==> Sec(a) <= Sec(b)
    ensures a + seconds * SECOND <= b ==> Sec(a) + seconds <= Sec(b)
  {
    assert (a + seconds * SECOND) / SECOND == a / SECOND + seconds;
  }

  lemma CountsTheHistory(w: Window, history: set<Nanos>, last: Nanos, c: Call, seconds: nat)
    requires Agrees(w, history, last, seconds) && last <= c.now
    ensures Scored(Pruned(Surviving(w, c), Sec(c.now) - seconds), Sec(c.now) - seconds, Sec(c.now))
         == Within(history, Sec(c.now), seconds)
  {
    forall t | t in history ensures Sec(t) <= Sec(c.now) {
      SecMonotone(t, c.now, seconds);
    }
    SecMonotone(last, c.now, seconds);
    if Surviving(w, c) != w.entries {
      forall t | t in history ensures Sec(t) <= Sec(c.now) - seconds {
        SecMonotone(t, last, seconds);
      }
    }
  }

  lemma AdmitsByHistory(w: Window, history: set<Nanos>, last: Nanos, c: Call, max: int, seconds: nat)
    requires Agrees(w, history, last, seconds) && last <= c.now
    ensures Admits(w, c, max, seconds) <==> |Within(history, Sec(c.now), seconds)| < max
  {
    CountsTheHistory(w, history, last, c, seconds);
  }

  lemma AgreesStep(w: Window, history: set<Nanos>, last: Nanos, c: Call, max: int, seconds: nat)
    requires Agrees(w, history, last, seconds) && last <= c.now
    ensures var next := if Admits(w, c, max, seconds) then history + {c.now} else history;
            Agrees(Next(w, c, max, seconds), next, c.now, seconds)
  {
    CountsTheHistory(w, history, last, c, seconds);
    forall t | t in history && Sec(t) > Sec(c.now) - seconds
      ensures t in Pruned(Surviving(w, c), Sec(c.now) - seconds)
    {
      SecMonotone(t, c.now, seconds);
      assert t in Within(history, Sec(c.now), seconds);
    }
  }

  lemma {:induction false} RunAgrees(calls: seq<Call>, max: int, seconds: nat)
    requires Ticking(calls) && seconds >= 1
    ensures Agrees(Run(calls, max, seconds), Admitted(calls, max, seconds),
                   if calls == [] then 0 else calls[|calls| - 1].now, seconds)
  {
    if calls != [] {
      var front, last := calls[..|calls| - 1], calls[|calls| - 1];
      RunAgrees(front, max, seconds);
      AgreesStep(Run(front, max, seconds), Admitted(front, max, seconds),
                 if front == [] then 0 else front[|front| - 1].now, last, max, seconds);
    }
  }

  lemma DecisionStep(calls: seq<Call>, max: int, seconds: nat)
    requires Ticking(calls) && seconds >= 1 && calls != []
    ensures var front, last := calls[..|calls| - 1], calls[|calls| - 1];
            Admits(Run(front, max, seconds), last, max, seconds)
            <==> |Within(Admitted(front, max, seconds), Sec(last.now), seconds)| < max
  {
    var front, last := calls[..|calls| - 1], calls[|calls| - 1];
    RunAgrees(front, max, seconds);
    AdmitsByHistory(Run(front, max, seconds), Admitted(front, max, seconds),
                    if front == [] then 0 else front[|front| - 1].now, last, max, seconds);
  }

  /**
   The pruned, expiring set admits exactly the calls that counting the whole history admits, however
   its key expires.
   */
  lemma {:induction false} SameDecisions(calls: seq<Call>, max: int, seconds: nat)
    requires Ticking(calls) && seconds >= 1
    ensures Admitted(calls, max, seconds) == Reference(calls, max, seconds)
  {
    if calls != [] {
      SameDecisions(calls[..|calls| - 1], max, seconds);
      DecisionStep(calls, max, seconds);
    }
  }

  /** So whether and when the key expires makes no difference to anyone. */
  lemma {:induction false} ExpiryUnobservable(calls: seq<Call>, other: seq<Call>, max: int, seconds: nat)
    requires Ticking(calls) && seconds >= 1 && |other| == |calls|
    requires forall i :: 0 <= i < |calls| ==> other[i].now == calls[i].now
    ensures Admitted(other, max, seconds) == Admitted(calls, max, seconds)
  {
    SameDecisions(calls, max, seconds);
    SameDecisions(other, max, seconds);
    SameReference(calls, other, max, seconds);
  }

  lemma {:induction false} SameReference(calls: seq<Call>, other: seq<Call>, max: int, seconds: nat)
    requires |other| == |calls| && forall i :: 0 <= i < |calls| ==> other[i].now == calls[i].now
    ensures Reference(other, max, seconds) == Reference(calls, max, seconds)
  {
    if calls != [] {
      SameReference(calls[..|calls| - 1], other[..|other| - 1], max, seconds);
    }
  }

  // ---------------------------------------------------------------- the limit

  lemma {:induction false} ReferenceBefore(calls: seq<Call>, max: int, seconds: nat)
    ensures forall t :: t in Reference(calls, max, seconds) ==> exists i :: 0 <= i < |calls| && calls[i].now == t
  {
    if calls != [] {
      var front := calls[..|calls| - 1];
      ReferenceBefore(front, max, seconds);
      forall t | t in Reference(calls, max, seconds) ensures exists i :: 0 <= i < |calls| && calls[i].now == t {
        if t in Reference(front, max, seconds) {
          var i :| 0 <= i < |front| && front[i].now == t;
          assert calls[i].now == t;
        } else {
          assert calls[|calls| - 1].now == t;
        }
      }
    }
  }

  /** Any `seconds` consecutive whole seconds hold at most `max` admissions. */
  lemma {:induction false} WindowLimit(calls: seq<Call>, max: nat, seconds: nat, s: int)
    requires Ticking(calls) && seconds >= 1
    ensures |Within(Admitted(calls, max, seconds), s, seconds)| <= max
  {
    SameDecisions(calls, max, seconds);
    if calls == [] {
      assert Within({}, s, seconds) == {};
    } else {
      var front, now := calls[..|calls| - 1], calls[|calls| - 1].now;
      WindowLimit(front, max, seconds, s);
      SameDecisions(front, max, seconds);
      var history := Reference(front, max, seconds);
      forall t | t in history ensures Sec(t) <= Sec(now) && t != now {
        ReferenceBefore(front, max, seconds);
        var i :| 0 <= i < |front| && front[i].now == t;
        assert calls[i].now < calls[|calls| - 1].now;
        SecMonotone(t, now, seconds);
      }
      OneMore(history, now, s, seconds);
    }
  }

  /** A later admission joins a window only if the window up to it had room. */
  lemma OneMore(history: set<Nanos>, now: Nanos, s: int, seconds: nat)
    requires forall t :: t in history ==> Sec(t) <= Sec(now) && t != now
    ensures if s - seconds < Sec(now) <= s
            then |Within(history + {now}, s, seconds)| <= |Within(history, Sec(now), seconds)| + 1
            else Within(history + {now}, s, seconds) == Within(history, s, seconds)
  {
    if s - seconds < Sec(now) <= s {
      SubsetSize(Within(history, s, seconds), Within(history, Sec(now), seconds));
      assert Within(history + {now}, s, seconds) == Within(history, s, seconds) + {now};
    }
  }

  /** The admissions in the real-time window `(t - seconds, t]`. */
  function Span(history: set<Nanos>, t: Nanos, seconds: nat): set<Nanos> {
    set a | a in history && t - seconds * SECOND < a <= t
  }

  /** A real-time window that ends with the last nanosecond of a second is made of whole seconds. */
  lemma {:induction false} AlignedSpanLimit(calls: seq<Call>, max: nat, seconds: nat, t: Nanos)
    requires Ticking(calls) && seconds >= 1 && (t + 1) % SECOND == 0
    ensures |Span(Admitted(calls, max, seconds), t, seconds)| <= max
  {
    var history := Admitted(calls, max, seconds);
    WindowLimit(calls, max, seconds, Sec(t));
    forall a ensures a in Span(history, t, seconds) <==> a in Within(history, Sec(t), seconds) {
      AlignedSecond(a, t, seconds);
    }
    assert Span(history, t, seconds) == Within(history, Sec(t), seconds);
  }

  lemma AlignedSecond(a: Nanos, t: Nanos, seconds: nat)
    requires (t + 1) % SECOND == 0
    ensures t - seconds * SECOND < a <= t <==> Sec(t) - seconds < Sec(a) <= Sec(t)
  {
    assert t == Sec(t) * SECOND + (SECOND - 1);
    assert a == Sec(a) * SECOND + a % SECOND;
  }

  /** Any real-time window holds at most twice the limit: scores are whole seconds, so it may straddle one more. */
  lemma SpanLimit(calls: seq<Call>, max: nat, seconds: nat, t: Nanos)
    requires Ticking(calls) && seconds >= 1
    ensures |Span(Admitted(calls, max, seconds), t, seconds)| <= 2 * max
  {
    var history, s := Admitted(calls, max, seconds), Sec(t);
    SpanInTwoWindows(history, t, seconds);
    assert |Within(history, s, seconds)| <= max by {
      WindowLimit(calls, max, seconds, s);
    }
    assert |Within(history, s - seconds, seconds)| <= max by {
      WindowLimit(calls, max, seconds, s - seconds);
    }
  }

  lemma SpanInTwoWindows(history: set<Nanos>, t: Nanos, seconds: nat)
    requires seconds >= 1
    ensures |Span(history, t, seconds)|
         <= |Within(history, Sec(t), seconds)| + |Within(history, Sec(t) - seconds, seconds)|
  {
    var late, early := Within(history, Sec(t), seconds), Within(history, Sec(t) - seconds, seconds);
    forall a | a in Span(history, t, seconds) ensures a in late + early {
      SecMonotone(a, t, seconds);
      StartSecond(a, t, seconds);
    }
    SubsetSize(Span(history, t, seconds), late + early);
  }

  lemma StartSecond(a: Nanos, t: Nanos, seconds: nat)
    requires t - seconds * SECOND < a
    ensures Sec(t) - seconds <= Sec(a)
  {
    assert a == Sec(a) * SECOND + a % SECOND && t == Sec(t) * SECOND + t % SECOND;
  }

  // ---------------------------------------------------------------- exactly which windows keep the limit

  /**
   The window ends with a second, or nothing is ever admitted, or the limit is no smaller than the
   window's nanoseconds, or the window begins before the clock does.
   */
  predicate Safe(max: nat, seconds: nat, t: Nanos) {
    (t + 1) % SECOND == 0 || max == 0 || max >= seconds * SECOND || t < seconds * SECOND
  }

  lemma SafeSpanLimit(calls: seq<Call>, max: nat, seconds: nat, t: Nanos)
    requires Ticking(calls) && seconds >= 1 && Safe(max, seconds, t)
    ensures |Span(Admitted(calls, max, seconds), t, seconds)| <= max
  {
    var history := Admitted(calls, max, seconds);
    if (t + 1) % SECOND == 0 {
      AlignedSpanLimit(calls, max, seconds, t);
    } else if t < seconds * SECOND {
      WindowLimit(calls, max, seconds, Sec(t));
      EarlySpan(history, t, seconds);
    } else if max == 0 {
      SpanLimit(calls, max, seconds, t);
    } else {
      SpanSize(history, t, seconds);
    }
  }

  lemma EarlySpan(history: set<Nanos>, t: Nanos, seconds: nat)
    requires t < seconds * SECOND
    ensures |Span(history, t, seconds)| <= |Within(history, Sec(t), seconds)|
  {
    forall a | a in Span(history, t, seconds) ensures a in Within(history, Sec(t), seconds) {
      SecMonotone(a, t, seconds);
      assert Sec(t) < seconds;
    }
    SubsetSize(Span(history, t, seconds), Within(history, Sec(t), seconds));
  }

  /** A window of this many nanoseconds has room for no more admissions. */
  lemma SpanSize(history: set<Nanos>, t: Nanos, seconds: nat)
    requires t >= seconds * SECOND
    ensures |Span(history, t, seconds)| <= seconds * SECOND
  {
    var all := Grown({}, t - seconds * SECOND + 1, seconds * SECOND);
    GrownFacts({}, t - seconds * SECOND + 1, seconds * SECOND);
    GrownSize({}, t - seconds * SECOND + 1, seconds * SECOND);
    SubsetSize(Span(history, t, seconds), all);
  }

  /** After the calls `front`, a call in each of `n` nanoseconds from `start` on. */
  function Burst(front: seq<Call>, start: Nanos, n: nat): (calls: seq<Call>)
    ensures |calls| == |front| + n
  {
    if n == 0 then front else Burst(front, start, n - 1) + [Call(start + n - 1, false)]
  }

  lemma {:induction false} BurstTicks(front: seq<Call>, start: Nanos, n: nat)
    requires Ticking(front) && forall i :: 0 <= i < |front| ==> front[i].now < start
    ensures Ticking(Burst(front, start, n))
    ensures forall i :: 0 <= i < |front| + n ==> Burst(front, start, n)[i].now < start + n
  {
    if n > 0 {
      BurstTicks(front, start, n - 1);
    }
  }

  /** Every window that ends with one of the seconds `low..high` has room for `k` more. */
  ghost predicate HasRoom(history: set<Nanos>, low: int, high: int, k: nat, max: int, seconds: nat) {
    forall s: int :: low <= s <= high ==> |Within(history, s, seconds)| + k <= max
  }

  /** `history` with the instants of a burst. */
  function Grown(history: set<Nanos>, start: Nanos, n: nat): set<Nanos> {
    if n == 0 then history else Grown(history, start, n - 1) + {start + n - 1}
  }

  lemma {:induction false} GrownWithin(history: set<Nanos>, start: Nanos, n: nat, s: int, seconds: nat)
    ensures |Within(Grown(history, start, n), s, seconds)| <= |Within(history, s, seconds)| + n
  {
    if n > 0 {
      GrownWithin(history, start, n - 1, s, seconds);
      WithinOne(Grown(history, start, n - 1), start + n - 1, s, seconds);
    }
  }

  lemma WithinOne(history: set<Nanos>, t: Nanos, s: int, seconds: nat)
    ensures |Within(history + {t}, s, seconds)| <= |Within(history, s, seconds)| + 1
  {
    SubsetSize(Within(history + {t}, s, seconds), Within(history, s, seconds) + {t});
  }

  lemma {:induction false} GrownFacts(history: set<Nanos>, start: Nanos, n: nat)
    ensures forall a :: a in Grown(history, start, n) <==> a in history || start <= a < start + n
  {
    if n > 0 {
      GrownFacts(history, start, n - 1);
    }
  }

  /** The last call of a burst is admitted if its window has room for the burst. */
  lemma BurstStep(front: seq<Call>, history: set<Nanos>, start: Nanos, n: nat, k: nat, max: int, seconds: nat)
    requires 0 < n <= k && |Within(history, Sec(start + n - 1), seconds)| + k <= max
    requires Reference(Burst(front, start, n - 1), max, seconds) == Grown(history, start, n - 1)
    ensures Reference(Burst(front, start, n), max, seconds) == Grown(history, start, n)
  {
    GrownWithin(history, start, n - 1, Sec(start + n - 1), seconds);
    AdmitOne(Burst(front, start, n - 1), start + n - 1, Grown(history, start, n - 1), max, seconds);
  }

  /** Seconds do not run back within a burst. */
  lemma LastSecond(start: Nanos, n: nat)
    requires n > 0
    ensures Sec(start) <= Sec(start + n - 1) && (n > 1 ==> Sec(start + n - 2) <= Sec(start + n - 1))
  {
    SecMonotone(start, start + n - 1, 0);
    SecMonotone(if n > 1 then start + n - 2 else start, start + n - 1, 0);
  }

  /** A burst is admitted whole if every window it falls into has room for it. */
  lemma {:induction false} BurstAdmitted(front: seq<Call>, history: set<Nanos>, start: Nanos, n: nat,
                                         low: int, high: int, k: nat, max: int, seconds: nat)
    requires Reference(front, max, seconds) == history
    requires HasRoom(history, low, high, k, max, seconds) && n <= k
    requires low <= Sec(start) && (n > 0 ==> Sec(start + n - 1) <= high)
    ensures Reference(Burst(front, start, n), max, seconds) == Grown(history, start, n)
  {
    if n > 0 {
      LastSecond(start, n);
      BurstAdmitted(front, history, start, n - 1, low, high, k, max, seconds);
      BurstStep(front, history, start, n, k, max, seconds);
    }
  }

  lemma AdmitOne(before: seq<Call>, now: Nanos, history: set<Nanos>, max: int, seconds: nat)
    requires Reference(before, max, seconds) == history && |Within(history, Sec(now), seconds)| < max
    ensures Reference(before + [Call(now, false)], max, seconds) == history + {now}
  {
    assert (before + [Call(now, false)])[..|before|] == before;
  }

  /**
   How many calls to make at the end of the first second the window touches, in the whole seconds
   between, and in its last second, so that no window of whole seconds is overrun but this one is.
   */
  function Shares(max: nat, seconds: nat, t: Nanos): (r: (nat, nat, nat))
    requires seconds >= 1 && !Safe(max, seconds, t)
    ensures r.0 + r.1 <= max && r.1 + r.2 <= max < r.0 + r.1 + r.2
    ensures r.0 < SECOND - t % SECOND && r.1 <= (seconds - 1) * SECOND && r.2 <= t % SECOND + 1
  {
    var tail, head := SECOND - 1 - t % SECOND, t % SECOND + 1;
    assert tail >= 1 by { Unaligned(t); }
    var mid := if (seconds - 1) * SECOND < max then (seconds - 1) * SECOND else max - 1;
    var room := max - mid;
    (if tail < room then tail else room, mid, if head < room then head else room)
  }

  lemma Unaligned(t: Nanos)
    ensures (t + 1) % SECOND == 0 <==> t % SECOND == SECOND - 1
  {
    assert t + 1 == t / SECOND * SECOND + (t % SECOND + 1);
  }

  lemma LateShare(first: Nanos, tail: nat, mid: nat, s: int, seconds: nat)
    requires first == (s - seconds + 1) * SECOND && tail <= first
    ensures |Within(Grown({}, first - tail, tail + mid), s, seconds)| <= mid
  {
    var all := Grown({}, first - tail, tail + mid);
    GrownFacts({}, first - tail, tail + mid);
    GrownFacts({}, first, mid);
    GrownSize({}, first, mid);
    forall a | a in Within(all, s, seconds) ensures a in Grown({}, first, mid) {
      assert a >= Sec(a) * SECOND >= first;
    }
    SubsetSize(Within(all, s, seconds), Grown({}, first, mid));
  }

  lemma FirstSecond(seconds: nat, t: Nanos)
    requires seconds >= 1 && t >= seconds * SECOND
    ensures Sec(t) >= seconds && (Sec(t) - seconds + 1) * SECOND >= SECOND
    ensures t == Sec(t) * SECOND + t % SECOND
    ensures (Sec(t) - seconds + 1) * SECOND + (seconds - 1) * SECOND == Sec(t) * SECOND
    ensures (Sec(t) - seconds + 1) * SECOND == t - seconds * SECOND + (SECOND - t % SECOND)
  {
    assert t == Sec(t) * SECOND + t % SECOND;
    SecMonotone(0, t, seconds);
    assert (Sec(t) - seconds + 1) * SECOND >= 1 * SECOND;
  }

  lemma FirstBurst(start: Nanos, n: nat, max: nat, seconds: nat)
    requires n <= max
    ensures Reference(Burst([], start, n), max, seconds) == Grown({}, start, n)
  {
    assert forall s: int :: Within({}, s, seconds) == {};
    SecMonotone(start, start + n, 0);
    SecMonotone(if n > 0 then start + n - 1 else 0, start + n, 0);
    BurstAdmitted([], {}, start, n, 0, Sec(start + n), n, max, seconds);
  }

  /** A burst across the start of the first whole second of a window, then one in its last second. */
  lemma BothBurstsAdmitted(first: Nanos, tail: nat, mid: nat, s: nat, head: nat, max: nat, seconds: nat)
    returns (calls: seq<Call>)
    requires seconds >= 1 && first == (s - seconds + 1) * SECOND && tail <= first && head <= SECOND
    requires tail + mid <= max && mid + head <= max && first + mid <= s * SECOND
    ensures Ticking(calls) && |Admitted(calls, max, seconds)| == tail + mid + head
    ensures forall a :: a in Admitted(calls, max, seconds) ==> first - tail <= a < s * SECOND + head
  {
    var start, last := first - tail, s * SECOND;
    var n := tail + mid;
    calls := Burst(Burst([], start, n), last, head);
    BurstTicks([], start, n);
    BurstTicks(Burst([], start, n), last, head);
    LateShare(first, tail, mid, s, seconds);
    TwoBursts(start, n, last, head, mid, s, max, seconds);
    SameDecisions(calls, max, seconds);
    GrownTwice(start, n, last, head);
  }

  lemma GrownTwice(start: Nanos, n: nat, last: Nanos, head: nat)
    requires start + n <= last
    ensures |Grown(Grown({}, start, n), last, head)| == n + head
    ensures forall a :: a in Grown(Grown({}, start, n), last, head) ==> start <= a < last + head
  {
    GrownFacts({}, start, n);
    GrownFacts(Grown({}, start, n), last, head);
    GrownSize({}, start, n);
    GrownSize(Grown({}, start, n), last, head);
  }

  lemma TwoBursts(start: Nanos, n: nat, last: Nanos, head: nat, mid: nat, s: nat, max: nat, seconds: nat)
    requires n <= max && last == s * SECOND && head <= SECOND && mid + head <= max
    requires |Within(Grown({}, start, n), s, seconds)| <= mid
    ensures Reference(Burst(Burst([], start, n), last, head), max, seconds) == Grown(Grown({}, start, n), last, head)
  {
    FirstBurst(start, n, max, seconds);
    assert Sec(last) == s && (head > 0 ==> Sec(last + head - 1) == s);
    BurstAdmitted(Burst([], start, n), Grown({}, start, n), last, head, s, s, head, max, seconds);
  }

  /** Every window that is not safe can be overrun, whatever the limit. */
  lemma {:induction false} UnsafeSpanOverrun(max: nat, seconds: nat, t: Nanos) returns (calls: seq<Call>)
    requires seconds >= 1 && !Safe(max, seconds, t)
    ensures Ticking(calls) && |Span(Admitted(calls, max, seconds), t, seconds)| > max
  {
    var first, tail, mid, last, head := Plan(max, seconds, t);
    calls := BothBurstsAdmitted(first, tail, mid, Sec(t), head, max, seconds);
    assert Span(Admitted(calls, max, seconds), t, seconds) == Admitted(calls, max, seconds);
  }

  /** Where the first whole second of the window and its last second start, and the shares of calls. */
  lemma Plan(max: nat, seconds: nat, t: Nanos)
    returns (first: Nanos, tail: nat, mid: nat, last: Nanos, head: nat)
    requires seconds >= 1 && !Safe(max, seconds, t)
    ensures first == (Sec(t) - seconds + 1) * SECOND && last == Sec(t) * SECOND
    ensures tail <= first && t - seconds * SECOND < first - tail && first + mid <= last && last + head <= t + 1
    ensures head <= SECOND && tail + mid <= max && mid + head <= max < tail + mid + head
  {
    FirstSecond(seconds, t);
    first, last := (Sec(t) - seconds + 1) * SECOND, Sec(t) * SECOND;
    var shares := Shares(max, seconds, t);
    tail, mid, head := shares.0, shares.1, shares.2;
  }

  lemma {:induction false} GrownSize(history: set<Nanos>, start: Nanos, n: nat)
    requires forall a :: a in history ==> a < start
    ensures |Grown(history, start, n)| == |history| + n
  {
    if n > 0 {
      GrownFacts(history, start, n - 1);
      GrownSize(history, start, n - 1);
    }
  }

  /** The limiter keeps its limit in the real-time window that ends at `t`, in every run. */
  ghost predicate KeepsLimit(max: nat, seconds: nat, t: Nanos) {
    forall calls :: Ticking(calls) ==> |Span(Admitted(calls, max, seconds), t, seconds)| <= max
  }

  /** Exactly the safe windows keep the limit. */
  lemma {:induction false} SafeExactly(max: nat, seconds: nat, t: Nanos)
    requires seconds >= 1
    ensures KeepsLimit(max, seconds, t) <==> Safe(max, seconds, t)
  {
    if Safe(max, seconds, t) {
      forall calls | Ticking(calls) ensures |Span(Admitted(calls, max, seconds), t, seconds)| <= max {
        SafeSpanLimit(calls, max, seconds, t);
      }
    } else {
      var calls := UnsafeSpanOverrun(max, seconds, t);
    }
  }
}
