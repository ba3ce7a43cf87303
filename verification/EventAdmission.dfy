/**
 Admission per event and per client: two Redis counters with a time to live, incremented together and
 rolled back on refusal.
 */
module EventAdmission {
  import opened Prelude

  type EventId = nat
  type ClientId = nat

  /** Redis time, in milliseconds. */
  type Millis = nat

  datatype Name = EventCounter(event: EventId) | ClientCounter(event: EventId, client: ClientId)

  datatype Key = Key(count: int, deadline: Option<Millis>)

  type Store = map<Name, Key>

  /** One request; the keys in `gone` have vanished by now, if their deadlines allow. */
  datatype Request = Request(event: EventId, client: ClientId, now: Millis, gone: set<Name>)
  {
    function Names(): set<Name> {
      {EventCounter(event), ClientCounter(event, client)}
    }
  }

  datatype Limits = Limits(seconds: nat, event: int, client: int)
  {
    function Ttl(): nat {
      seconds * 1000
    }

    function Of(n: Name): int {
      if n.EventCounter? then event else client
    }

    /** What a counter can reach; no client is admitted more often than its event. */
    function Cap(n: Name): int {
      if n.ClientCounter? && client < event then client else event
    }

    predicate Enforced() {
      event >= 1 && client >= 1 && seconds >= 1
    }
  }

  // ---------------------------------------------------------------- one request, on values

  predicate Vanished(k: Key, now: Millis) {
    k.deadline.Some? && now >= k.deadline.value
  }

  /** A key may vanish at any moment from its deadline on. */
  function Living(keys: Store, r: Request): Store {
    map n | n in keys && !(n in r.gone && Vanished(keys[n], r.now)) :: keys[n]
  }

  function CountOf(keys: Store, n: Name): int {
    if n in keys then keys[n].count else 0
  }

  /** INCR, which keeps the time to live, then EXPIRE if the key is new or has none. */
  function Incremented(keys: Store, n: Name, deadline: Millis): Key {
    var count := CountOf(keys, n) + 1;
    if count == 1 || n !in keys || keys[n].deadline.None? then Key(count, Some(deadline))
    else Key(count, keys[n].deadline)
  }

  predicate Allowed(keys: Store, r: Request, l: Limits) {
    var living := Living(keys, r);
    && CountOf(living, EventCounter(r.event)) < l.event
    && CountOf(living, ClientCounter(r.event, r.client)) < l.client
  }

  /** How a request touches a counter. */
  datatype Touch = Skip | Admit | Refuse

  function TouchOf(keys: Store, r: Request, l: Limits, n: Name): Touch {
    if n !in r.Names() then Skip
    else if Allowed(keys, r, l) then Admit
    else if n.ClientCounter? && CountOf(Living(keys, r), EventCounter(r.event)) >= l.event then Skip
    else Refuse
  }

  /** What a refusal leaves: the count as it was, with a new deadline. */
  function Refused(keys: Store, n: Name, deadline: Millis): Key {
    Key(CountOf(keys, n), Some(deadline))
  }

  function Next(keys: Store, r: Request, l: Limits): Store {
    var living, deadline := Living(keys, r), r.now + l.Ttl();
    var event, client := EventCounter(r.event), ClientCounter(r.event, r.client);
    if CountOf(living, event) >= l.event then
      living[event := Refused(living, event, deadline)]
    else if CountOf(living, client) >= l.client then
      living[event := Refused(living, event, deadline)][client := Refused(living, client, deadline)]
    else
      living[event := Incremented(living, event, deadline)][client := Incremented(living, client, deadline)]
  }

  class AdmissionControl {
    const limits: Limits
    var keys: Store

    constructor (limits: Limits)
      ensures this.limits == limits && keys == map[]
    {
      this.limits := limits;
      keys := map[];
    }

    method IncrWithTtl(n: Name, now: Millis) returns (count: int)
      modifies this
      ensures keys == old(keys)[n := Incremented(old(keys), n, now + limits.Ttl())]
      ensures count == keys[n].count
    {
      if n in keys {
        keys := keys[n := keys[n].(count := keys[n].count + 1)];
      } else {
        keys := keys[n := Key(1, None)];
      }
      count := keys[n].count;
      if count == 1 || keys[n].deadline.None? {
        Expire(n, now);
      }
    }

    method Decr(n: Name)
      requires n in keys
      modifies this
      ensures keys == old(keys)[n := old(keys)[n].(count := old(keys)[n].count - 1)]
    {
      keys := keys[n := keys[n].(count := keys[n].count - 1)];
    }

    method Expire(n: Name, now: Millis)
      requires n in keys
      modifies this
      ensures keys == old(keys)[n := old(keys)[n].(deadline := Some(now + limits.Ttl()))]
    {
      keys := keys[n := keys[n].(deadline := Some(now + limits.Ttl()))];
    }

    /** A limit of zero or less switches the control off. */
    method CheckEventAdmission(r: Request) returns (allowed: bool)
      modifies this
      ensures limits.event <= 0 || limits.client <= 0 ==> allowed && keys == old(keys)
      ensures limits.event >= 1 && limits.client >= 1 ==>
                allowed == Allowed(old(keys), r, limits) && keys == Next(old(keys), r, limits)
    {
      if limits.event <= 0 || limits.client <= 0 { return true; }
      keys := Living(keys, r);
      var event, client := EventCounter(r.event), ClientCounter(r.event, r.client);
      var eventCount := IncrWithTtl(event, r.now);
      if eventCount > limits.event {
        Decr(event);
        Expire(event, r.now);
        return false;
      }
      var clientCount := IncrWithTtl(client, r.now);
      if clientCount > limits.client {
        Decr(event);
        Decr(client);
        Expire(event, r.now);
        Expire(client, r.now);
        return false;
      }
      return true;
    }
  }

  // ---------------------------------------------------------------- runs

  function Run(rs: seq<Request>, l: Limits): Store {
    if rs == [] then map[] else Next(Run(rs[..|rs| - 1], l), rs[|rs| - 1], l)
  }

  /** The times at which counter `n` took part in an admission. */
  function Log(rs: seq<Request>, l: Limits, n: Name): seq<Millis> {
    if rs == [] then []
    else
      var front, r := rs[..|rs| - 1], rs[|rs| - 1];
      Log(front, l, n) + if n in r.Names() && Allowed(Run(front, l), r, l) then [r.now] else []
  }

  /** How many admissions the counter had seen when its current key was created. */
  function LifetimeStart(rs: seq<Request>, l: Limits, n: Name): nat {
    if rs == [] then 0
    else
      var front, r := rs[..|rs| - 1], rs[|rs| - 1];
      if n in Run(front, l) && n !in Living(Run(front, l), r) then |Log(front, l, n)|
      else LifetimeStart(front, l, n)
  }

  predicate Ordered(rs: seq<Request>) {
    forall i, j :: 0 <= i < j < |rs| ==> rs[i].now <= rs[j].now
  }

  // ---------------------------------------------------------------- one counter through a run

  function KeyOf(keys: Store, n: Name): Option<Key> {
    if n in keys then Some(keys[n]) else None
  }

  /** What a request does to the key of one counter. */
  function Touched(key: Option<Key>, touch: Touch, deadline: Millis): Option<Key> {
    var keys := if key.Some? then map[EventCounter(0) := key.value] else map[];
    match touch
    case Skip => key
    case Admit => Some(Incremented(keys, EventCounter(0), deadline))
    case Refuse => Some(Refused(keys, EventCounter(0), deadline))
  }

  lemma NextAt(keys: Store, r: Request, l: Limits, n: Name)
    ensures KeyOf(Next(keys, r, l), n) == Touched(KeyOf(Living(keys, r), n), TouchOf(keys, r, l, n), r.now + l.Ttl())
  {
  }

  /**
   One counter's key and admissions: `log[start..]` are those of the current key, `log[prev..start]`
   those of the last key before it that saw any.
   */
  datatype Meter = Meter(key: Option<Key>, log: seq<Millis>, prev: nat, start: nat, last: Millis)

  function MeterOf(rs: seq<Request>, l: Limits, n: Name): Meter {
    if rs == [] then Meter(None, [], 0, 0, 0)
    else
      var front, r := rs[..|rs| - 1], rs[|rs| - 1];
      Ticked(MeterOf(front, l, n), Run(front, l), r, l, n)
  }

  function Tick(m: Meter, dropped: bool, touch: Touch, now: Millis, ttl: nat): Meter {
    Meter(Touched(if dropped then None else m.key, touch, now + ttl),
          if touch.Admit? then m.log + [now] else m.log,
          if dropped && m.start < |m.log| then m.start else m.prev,
          if dropped then |m.log| else m.start,
          now)
  }

  predicate Rising(log: seq<Millis>, last: Millis) {
    (forall i, j :: 0 <= i < j < |log| ==> log[i] <= log[j]) && forall i :: 0 <= i < |log| ==> log[i] <= last
  }

  /** Any `2 * limit` admissions in a row take at least the time to live. */
  ghost predicate Spread(log: seq<Millis>, ttl: nat, limit: int) {
    forall i, j :: 0 <= i <= j < |log| && j - i == 2 * limit - 1 ==> log[i] + ttl <= log[j]
  }

  predicate Tallied(m: Meter, limit: int) {
    && m.prev <= m.start <= |m.log| && (m.prev == m.start ==> m.start == 0)
    && m.start - m.prev <= limit && |m.log| - m.start <= limit
    && (if m.key.Some? then m.key.value.count == |m.log| - m.start && m.key.value.deadline.Some?
        else m.start == |m.log|)
  }

  predicate Timed(m: Meter, ttl: nat)
    requires m.prev <= m.start <= |m.log|
  {
    && (m.start < |m.log| && m.key.Some? && m.key.value.deadline.Some? ==>
          m.log[m.start] + ttl <= m.key.value.deadline.value)
    && (m.prev < m.start ==> m.log[m.prev] + ttl <= m.last)
  }

  ghost predicate MeterInv(m: Meter, ttl: nat, limit: int) {
    Rising(m.log, m.last) && Tallied(m, limit) && Timed(m, ttl) && Spread(m.log, ttl, limit)
  }

  /** The key is dropped only past its deadline, and admits only below the limit. */
  predicate Legal(m: Meter, dropped: bool, touch: Touch, now: Millis, limit: int) {
    && limit >= 1 && m.last <= now
    && (dropped ==> m.key.Some? && Vanished(m.key.value, now))
    && (touch.Admit? && m.key.Some? && !dropped ==> m.key.value.count < limit)
  }

  lemma TickTallied(m: Meter, dropped: bool, touch: Touch, now: Millis, ttl: nat, limit: int)
    requires Rising(m.log, m.last) && Tallied(m, limit) && Timed(m, ttl) && Legal(m, dropped, touch, now, limit)
    ensures var next := Tick(m, dropped, touch, now, ttl); Tallied(next, limit) && Timed(next, ttl)
  {
  }

  /** With room for one more, the admission `2 * limit - 1` before it lies a whole lifetime back. */
  lemma FarBack(m: Meter, ttl: nat, limit: int, now: Millis)
    requires Rising(m.log, m.last) && Tallied(m, limit) && Timed(m, ttl) && m.last <= now
    requires limit >= 1 && |m.log| - m.start < limit
    ensures var i := |m.log| - 2 * limit + 1; 0 <= i < |m.log| ==> m.log[i] + ttl <= now
  {
    var i := |m.log| - 2 * limit + 1;
    if 0 <= i {
      assert i <= m.prev < m.start;
      assert m.log[i] <= m.log[m.prev];
    }
  }

  /** An admission finds room. */
  lemma Room(m: Meter, dropped: bool, now: Millis, ttl: nat, limit: int)
    requires Rising(m.log, m.last) && Tallied(m, limit) && Timed(m, ttl) && Legal(m, dropped, Admit, now, limit)
    ensures var u := Tick(m, dropped, Skip, now, ttl);
            u.log == m.log && Tallied(u, limit) && Timed(u, ttl) && |u.log| - u.start < limit && Rising(u.log, u.last)
  {
    TickTallied(m, dropped, Skip, now, ttl, limit);
  }

  lemma AdmitSpread(m: Meter, dropped: bool, now: Millis, ttl: nat, limit: int)
    requires Rising(m.log, m.last) && Tallied(m, limit) && Timed(m, ttl) && Spread(m.log, ttl, limit)
    requires Legal(m, dropped, Admit, now, limit)
    ensures Spread(m.log + [now], ttl, limit)
  {
    Room(m, dropped, now, ttl, limit);
    FarBack(Tick(m, dropped, Skip, now, ttl), ttl, limit, now);
    SpreadSnoc(m.log, now, ttl, limit);
  }

  lemma SpreadSnoc(log: seq<Millis>, now: Millis, ttl: nat, limit: int)
    requires Spread(log, ttl, limit) && limit >= 1
    requires var i := |log| - 2 * limit + 1; 0 <= i < |log| ==> log[i] + ttl <= now
    ensures Spread(log + [now], ttl, limit)
  {
  }

  lemma TickSpread(m: Meter, dropped: bool, touch: Touch, now: Millis, ttl: nat, limit: int)
    requires MeterInv(m, ttl, limit) && Legal(m, dropped, touch, now, limit)
    ensures var next := Tick(m, dropped, touch, now, ttl);
            Rising(next.log, next.last) && Spread(next.log, ttl, limit)
  {
    if touch.Admit? {
      AdmitSpread(m, dropped, now, ttl, limit);
    }
  }

  /** What request `r` does to counter `n`, read off the whole store. */
  function Ticked(m: Meter, keys: Store, r: Request, l: Limits, n: Name): Meter {
    Tick(m, n in keys && n !in Living(keys, r), TouchOf(keys, r, l, n), r.now, l.Ttl())
  }

  lemma MeterStep(m: Meter, keys: Store, r: Request, l: Limits, n: Name)
    requires l.Enforced() && MeterInv(m, l.Ttl(), l.Of(n)) && m.key == KeyOf(keys, n) && m.last <= r.now
    ensures MeterInv(Ticked(m, keys, r, l, n), l.Ttl(), l.Of(n))
    ensures Ticked(m, keys, r, l, n).key == KeyOf(Next(keys, r, l), n)
  {
    var dropped, touch := n in keys && n !in Living(keys, r), TouchOf(keys, r, l, n);
    assert KeyOf(Living(keys, r), n) == if dropped then None else m.key;
    assert Legal(m, dropped, touch, r.now, l.Of(n));
    NextAt(keys, r, l, n);
    TickTallied(m, dropped, touch, r.now, l.Ttl(), l.Of(n));
    TickSpread(m, dropped, touch, r.now, l.Ttl(), l.Of(n));
  }

  lemma {:induction false} RunMeter(rs: seq<Request>, l: Limits, n: Name)
    requires Ordered(rs) && l.Enforced()
    ensures MeterInv(MeterOf(rs, l, n), l.Ttl(), l.Of(n))
    ensures MeterOf(rs, l, n).last == if rs == [] then 0 else rs[|rs| - 1].now
    ensures MeterOf(rs, l, n).key == KeyOf(Run(rs, l), n)
  {
    if rs != [] {
      var front, r := rs[..|rs| - 1], rs[|rs| - 1];
      RunMeter(front, l, n);
      MeterStep(MeterOf(front, l, n), Run(front, l), r, l, n);
    }
  }

  lemma {:induction false} MeterLog(rs: seq<Request>, l: Limits, n: Name)
    ensures MeterOf(rs, l, n).log == Log(rs, l, n) && MeterOf(rs, l, n).start == LifetimeStart(rs, l, n)
  {
    if rs != [] {
      MeterLog(rs[..|rs| - 1], l, n);
    }
  }

  /** A counter is the number of admissions since its key was created, and never ends above its limit. */
  lemma {:induction false} CounterExact(rs: seq<Request>, l: Limits, n: Name)
    requires Ordered(rs) && l.Enforced()
    ensures LifetimeStart(rs, l, n) <= |Log(rs, l, n)|
    ensures CountOf(Run(rs, l), n) == |Log(rs, l, n)| - LifetimeStart(rs, l, n)
    ensures 0 <= CountOf(Run(rs, l), n) <= l.Of(n)
    ensures n in Run(rs, l) ==> Run(rs, l)[n].deadline.Some?
  {
    RunMeter(rs, l, n);
    MeterLog(rs, l, n);
  }

  // ---------------------------------------------------------------- refusals renew the time to live

  /** The script found the counter at its limit and put it back. */
  predicate TurnedAway(keys: Store, r: Request, l: Limits, n: Name) {
    var events := CountOf(Living(keys, r), EventCounter(r.event));
    if n == EventCounter(r.event) then
      events >= l.event || CountOf(Living(keys, r), ClientCounter(r.event, r.client)) >= l.client
    else
      n == ClientCounter(r.event, r.client) && events < l.event && CountOf(Living(keys, r), n) >= l.client
  }

  /** When the counter last turned a request away. */
  function LastRefusal(rs: seq<Request>, l: Limits, n: Name): Option<Millis> {
    if rs == [] then None
    else
      var front, r := rs[..|rs| - 1], rs[|rs| - 1];
      if TurnedAway(Run(front, l), r, l, n) then Some(r.now) else LastRefusal(front, l, n)
  }

  /** The key of the counter, if it is there, will be until a lifetime after `at`. */
  predicate Outlasts(keys: Store, n: Name, at: Millis, ttl: nat) {
    n in keys ==> keys[n].deadline.Some? && keys[n].deadline.value >= at + ttl
  }

  lemma RefusalRenews(keys: Store, r: Request, l: Limits, n: Name)
    requires TurnedAway(keys, r, l, n)
    ensures n in Next(keys, r, l) && Outlasts(Next(keys, r, l), n, r.now, l.Ttl())
  {
    NextAt(keys, r, l, n);
  }

  lemma OutlastsStep(keys: Store, r: Request, l: Limits, n: Name, at: Millis)
    requires at <= r.now && Outlasts(keys, n, at, l.Ttl())
    ensures Outlasts(Next(keys, r, l), n, at, l.Ttl())
  {
    NextAt(keys, r, l, n);
  }

  /** However often it is retried, a counter that turns requests away keeps its key a whole lifetime after the last. */
  lemma {:induction false} RefusalsRenew(rs: seq<Request>, l: Limits, n: Name)
    requires Ordered(rs)
    ensures LastRefusal(rs, l, n).Some? ==>
              LastRefusal(rs, l, n).value <= rs[|rs| - 1].now
              && (n in Run(rs, l) ==>
                    && Run(rs, l)[n].deadline.Some?
                    && Run(rs, l)[n].deadline.value >= LastRefusal(rs, l, n).value + l.seconds * 1000)
  {
    if rs != [] {
      var front, r := rs[..|rs| - 1], rs[|rs| - 1];
      RefusalsRenew(front, l, n);
      if TurnedAway(Run(front, l), r, l, n) {
        RefusalRenews(Run(front, l), r, l, n);
      } else if LastRefusal(front, l, n).Some? {
        OutlastsStep(Run(front, l), r, l, n, LastRefusal(front, l, n).value);
      }
    }
  }

  // ---------------------------------------------------------------- admissions in real time

  /** The positions in the log of the admissions in `(t, t + ttl]`. */
  function InWindow(log: seq<Millis>, t: int, ttl: nat): set<nat> {
    set i: nat | i < |log| && t < log[i] <= t + ttl
  }

  lemma {:induction false} IntervalSize(a: nat, n: nat, s: set<nat>)
    requires forall i :: i in s ==> a <= i < a + n
    ensures |s| <= n
  {
    if n == 0 {
      assert s == {};
    } else {
      var last := a + n - 1;
      IntervalSize(a, n - 1, s - {last});
      WithoutOne(s, last);
    }
  }

  lemma SpreadAt(log: seq<Millis>, last: Millis, ttl: nat, limit: int, i: nat, k: nat)
    requires Rising(log, last) && Spread(log, ttl, limit) && limit >= 1 && i <= k < |log|
    ensures k - i >= 2 * limit - 1 ==> log[i] + ttl <= log[k]
  {
    if k - i >= 2 * limit - 1 {
      var j := i + 2 * limit - 1;
      assert log[i] + ttl <= log[j];
    }
  }

  lemma SpreadWindow(log: seq<Millis>, last: Millis, ttl: nat, limit: int, t: int)
    requires Rising(log, last) && Spread(log, ttl, limit) && limit >= 1
    ensures |InWindow(log, t, ttl)| <= 2 * limit - 1
  {
    var s := InWindow(log, t, ttl);
    if s != {} {
      var a := Smallest(s);
      forall i | i in s ensures a <= i < a + (2 * limit - 1) {
        SpreadAt(log, last, ttl, limit, a, i);
      }
      IntervalSize(a, 2 * limit - 1, s);
    }
  }

  lemma {:induction false} Smallest(s: set<nat>) returns (a: nat)
    requires s != {}
    ensures a in s && forall i :: i in s ==> a <= i
    decreases |s|
  {
    var x :| x in s;
    var rest := s - {x};
    assert s == rest + {x};
    if rest == {} {
      a := x;
    } else {
      var b := Smallest(rest);
      a := if b < x then b else x;
    }
  }

  lemma CounterWindow(rs: seq<Request>, l: Limits, n: Name, t: int)
    requires Ordered(rs) && l.Enforced()
    ensures |InWindow(Log(rs, l, n), t, l.Ttl())| <= 2 * l.Of(n) - 1
  {
    RunMeter(rs, l, n);
    MeterLog(rs, l, n);
    SpreadWindow(Log(rs, l, n), MeterOf(rs, l, n).last, l.Ttl(), l.Of(n), t);
  }

  lemma InWindowSnoc(log: seq<Millis>, x: Millis, t: int, ttl: nat)
    ensures |InWindow(log + [x], t, ttl)| == |InWindow(log, t, ttl)| + if t < x <= t + ttl then 1 else 0
  {
    WithoutOne(InWindow(log + [x], t, ttl), |log|);
    assert InWindow(log + [x], t, ttl) - {|log|} == InWindow(log, t, ttl);
  }

  /** Every admission of a client is one of its event. */
  lemma {:induction false} ClientWithinEvent(rs: seq<Request>, l: Limits, e: EventId, c: ClientId, t: int)
    ensures |InWindow(Log(rs, l, ClientCounter(e, c)), t, l.Ttl())|
         <= |InWindow(Log(rs, l, EventCounter(e)), t, l.Ttl())|
  {
    if rs != [] {
      var front, r := rs[..|rs| - 1], rs[|rs| - 1];
      ClientWithinEvent(front, l, e, c, t);
      InWindowSnoc(Log(front, l, ClientCounter(e, c)), r.now, t, l.Ttl());
      InWindowSnoc(Log(front, l, EventCounter(e)), r.now, t, l.Ttl());
      WithNothing(Log(front, l, ClientCounter(e, c)));
      WithNothing(Log(front, l, EventCounter(e)));
    }
  }

  /**
   Any stretch of time as long as the counters live sees at most `2 * cap - 1` admissions per event,
   and per client of an event: it meets at most two lifetimes, and not the start of the first.
   */
  lemma WindowLimit(rs: seq<Request>, l: Limits, n: Name, t: int)
    requires Ordered(rs) && l.Enforced()
    ensures |InWindow(Log(rs, l, n), t, l.Ttl())| <= 2 * l.Cap(n) - 1
  {
    CounterWindow(rs, l, n, t);
    if n.ClientCounter? {
      CounterWindow(rs, l, EventCounter(n.event), t);
      ClientWithinEvent(rs, l, n.event, n.client, t);
    }
  }

  // ---------------------------------------------------------------- not a sliding window

  /** One request at first, as many as fit just before the counters may vanish, then as many again. */
  function SurgeAt(l: Limits, n: Name, i: nat): Request
    requires l.Enforced()
  {
    var client := if n.ClientCounter? then n.client else i;
    Request(n.event, client,
            if i == 0 then 0 else if i < l.Cap(n) then l.Ttl() - 1 else l.Ttl(),
            if i == l.Cap(n) then {EventCounter(n.event), ClientCounter(n.event, client)} else {})
  }

  function Times(rs: seq<Request>): (log: seq<Millis>)
    ensures |log| == |rs| && forall i :: 0 <= i < |rs| ==> log[i] == rs[i].now
  {
    if rs == [] then [] else Times(rs[..|rs| - 1]) + [rs[|rs| - 1].now]
  }

  /** The keys the surge counts in, after `size` of its requests. */
  function SurgeKey(l: Limits, n: Name, size: nat): Key {
    if size <= l.Cap(n) then Key(size, Some(l.Ttl())) else Key(size - l.Cap(n), Some(2 * l.Ttl()))
  }

  ghost predicate Surging(keys: Store, l: Limits, n: Name, size: nat) {
    && KeyOf(keys, EventCounter(n.event)) == (if size == 0 then None else Some(SurgeKey(l, n, size)))
    && (n.ClientCounter? ==> KeyOf(keys, n) == KeyOf(keys, EventCounter(n.event)))
    && (n.EventCounter? ==> forall c: nat :: c >= size ==> ClientCounter(n.event, c) !in keys)
  }

  lemma SurgeStep(keys: Store, l: Limits, n: Name, size: nat)
    requires l.Enforced() && size < 2 * l.Cap(n) && Surging(keys, l, n, size)
    ensures Allowed(keys, SurgeAt(l, n, size), l)
    ensures Surging(Next(keys, SurgeAt(l, n, size), l), l, n, size + 1)
  {
    var r := SurgeAt(l, n, size);
    var event, client := EventCounter(n.event), ClientCounter(n.event, r.client);
    NextAt(keys, r, l, event);
    NextAt(keys, r, l, client);
    if size == l.Cap(n) {
      assert KeyOf(Living(keys, r), event) == None == KeyOf(Living(keys, r), client);
    } else {
      assert Living(keys, r) == keys;
    }
  }

  lemma Snoc(front: seq<Request>, r: Request, l: Limits, n: Name)
    ensures Run(front + [r], l) == Next(Run(front, l), r, l)
    ensures Log(front + [r], l, n)
         == Log(front, l, n) + if n in r.Names() && Allowed(Run(front, l), r, l) then [r.now] else []
    ensures Times(front + [r]) == Times(front) + [r.now]
  {
    assert (front + [r])[..|front|] == front;
  }

  ghost predicate Surged(rs: seq<Request>, l: Limits, n: Name, size: nat) {
    Surging(Run(rs, l), l, n, size) && Log(rs, l, n) == Times(rs)
  }

  lemma SurgeMore(front: seq<Request>, rs: seq<Request>, l: Limits, n: Name, size: nat)
    requires l.Enforced() && size < 2 * l.Cap(n) && Surged(front, l, n, size)
    requires rs == front + [SurgeAt(l, n, size)]
    ensures Surged(rs, l, n, size + 1)
  {
    SurgeStep(Run(front, l), l, n, size);
    Snoc(front, SurgeAt(l, n, size), l, n);
    assert n in SurgeAt(l, n, size).Names() || (n.EventCounter? && n == EventCounter(n.event));
  }

  lemma SurgeNone(l: Limits, n: Name)
    ensures Surged([], l, n, 0)
  {
  }

  predicate IsSurge(rs: seq<Request>, l: Limits, n: Name)
    requires l.Enforced()
  {
    forall i :: 0 <= i < |rs| ==> rs[i] == SurgeAt(l, n, i)
  }

  lemma {:induction false} SurgeAdmitted(l: Limits, n: Name, size: nat) returns (rs: seq<Request>)
    requires l.Enforced() && size <= 2 * l.Cap(n)
    ensures |rs| == size && IsSurge(rs, l, n) && Surged(rs, l, n, size)
  {
    if size == 0 {
      rs := [];
      SurgeNone(l, n);
    } else {
      var front := SurgeAdmitted(l, n, size - 1);
      rs := front + [SurgeAt(l, n, size - 1)];
      SurgeMore(front, rs, l, n, size - 1);
    }
  }

  function UpTo(n: nat): (s: set<nat>)
    ensures |s| == n && forall i :: i in s <==> 1 <= i <= n
  {
    if n == 0 then {} else UpTo(n - 1) + {n}
  }

  lemma AllLate(log: seq<Millis>, size: nat, ttl: nat)
    requires |log| == size + 1 && forall i :: 1 <= i <= size ==> 0 < log[i] <= ttl
    ensures |InWindow(log, 0, ttl)| >= size
  {
    assert forall i :: i in UpTo(size) ==> i in InWindow(log, 0, ttl);
    SubsetSize(UpTo(size), InWindow(log, 0, ttl));
  }

  lemma SurgeTimes(rs: seq<Request>, l: Limits, n: Name)
    requires l.Enforced() && IsSurge(rs, l, n)
    ensures Ordered(rs) && forall i :: 1 <= i < |rs| ==> 0 < rs[i].now <= l.Ttl()
  {
  }

  /** For any limits and any counter there is a run and a stretch of time that see that many. */
  lemma WindowLimitReached(l: Limits, n: Name) returns (rs: seq<Request>, t: int)
    requires l.Enforced()
    ensures Ordered(rs) && |InWindow(Log(rs, l, n), t, l.Ttl())| == 2 * l.Cap(n) - 1
  {
    t := 0;
    rs := SurgeAdmitted(l, n, 2 * l.Cap(n));
    SurgeTimes(rs, l, n);
    AllLate(Times(rs), 2 * l.Cap(n) - 1, l.Ttl());
    WindowLimit(rs, l, n, t);
  }

  /** Whatever is asked and whenever, no stretch of one lifetime sees more than the counter's limit. */
  ghost predicate SlidesProperly(l: Limits, n: Name) {
    forall rs, t :: Ordered(rs) ==> |InWindow(Log(rs, l, n), t, l.Ttl())| <= l.Of(n)
  }

  /**
   The windows are as good as sliding ones exactly when even two lifetimes cannot overrun the limit:
   for an event, when its limit is one.
   */
  lemma SlidesExactly(l: Limits, n: Name)
    requires l.Enforced()
    ensures SlidesProperly(l, n) <==> 2 * l.Cap(n) - 1 <= l.Of(n)
    ensures n.EventCounter? ==> (SlidesProperly(l, n) <==> l.event == 1)
  {
    var rs, t := WindowLimitReached(l, n);
    if 2 * l.Cap(n) - 1 <= l.Of(n) {
      forall rs, t | Ordered(rs) ensures |InWindow(Log(rs, l, n), t, l.Ttl())| <= l.Of(n) {
        WindowLimit(rs, l, n, t);
      }
    }
  }
}
