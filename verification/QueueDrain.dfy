/** Polling every partition, round after round at one instant, hands out everything that is due. */
module QueueDrain {
  import opened Prelude
  import opened ExpiryPartition
  import opened SortedSets
  import opened ExpiryQueue
  import opened QueueRuns

  /** What a poll at `now` may still hand out: due entries, and claims that have gone stale. */
  function DueNow(q: Queue, now: int): set<Member> {
    Due(q.pending, now)
  }

  function StaleNow(q: Queue, now: int): set<Member> {
    Due(q.inflight, now - VISIBILITY)
  }

  function Backlog(q: Queue, now: int): nat {
    |DueNow(q, now)| + |StaleNow(q, now)|
  }

  /** A stale claim costs two steps: it is restored, then claimed. */
  function Work(q: Queue, now: int): nat {
    Backlog(q, now) + |StaleNow(q, now)|
  }

  function StaleSet(q: Queue, c: Claim): set<Member>
    requires c.Accepted()
  {
    set m | m in Stale(q, c)
  }

  function ClaimedSet(q: Queue, c: Claim): set<Member>
    requires c.Accepted()
  {
    set m | m in Claimed(q, c)
  }

  lemma PollSizes(q: Queue, c: Claim)
    requires c.Accepted()
    ensures |StaleSet(q, c)| == |Stale(q, c)| && |ClaimedSet(q, c)| == |Claimed(q, c)|
  {
    StaleFacts(q, c);
    ClaimedFacts(q, c);
    SortedDistinct(q.inflight, Stale(q, c));
    SortedDistinct(Restored(q, c).pending, Claimed(q, c));
    DistinctSize(Stale(q, c));
    DistinctSize(Claimed(q, c));
  }

  lemma PollInside(q: Queue, c: Claim)
    requires c.Accepted()
    ensures StaleSet(q, c) <= StaleNow(q, c.now)
    ensures ClaimedSet(q, c) <= DueNow(q, c.now) + StaleSet(q, c)
  {
    PollEntries(q, c);
    StaleFacts(q, c);
    ClaimedFacts(q, c);
  }

  /** How one poll moves the due and the stale entries. */
  lemma PollSets(q: Queue, c: Claim)
    requires c.Accepted()
    ensures DueNow(Poll(q, c), c.now) == DueNow(q, c.now) + StaleSet(q, c) - ClaimedSet(q, c)
    ensures StaleNow(Poll(q, c), c.now) == StaleNow(q, c.now) - StaleSet(q, c) - ClaimedSet(q, c)
  {
    PollEntries(q, c);
    var r := Poll(q, c);
    forall m ensures m in DueNow(r, c.now) <==> m in DueNow(q, c.now) + StaleSet(q, c) - ClaimedSet(q, c) {
    }
    forall m ensures m in StaleNow(r, c.now) <==> m in StaleNow(q, c.now) - StaleSet(q, c) - ClaimedSet(q, c) {
    }
  }

  /** Every restored and every claimed entry is progress, and each claim shortens the backlog. */
  lemma PollProgress(q: Queue, c: Claim)
    requires c.Accepted()
    ensures Work(Poll(q, c), c.now) + |Stale(q, c)| + |Claimed(q, c)| <= Work(q, c.now)
    ensures Backlog(Poll(q, c), c.now) + |Claimed(q, c)| <= Backlog(q, c.now)
  {
    PollSizes(q, c);
    PollInside(q, c);
    PollSets(q, c);
    Counting(DueNow(q, c.now), StaleNow(q, c.now), StaleSet(q, c), ClaimedSet(q, c));
  }

  lemma Counting(due: set<Member>, stale: set<Member>, s: set<Member>, d: set<Member>)
    requires s <= stale && d <= due + s
    ensures |due + s - d| + |d| <= |due| + |s|
    ensures |stale - s - d| + |s| <= |stale|
  {
    assert due + s == (due + s - d) + d;
    assert stale == (stale - s) + s;
    SubsetSize(stale - s - d, stale - s);
  }

  /** The poll restores nothing and claims nothing. */
  predicate Idle(q: Queue, c: Claim) {
    c.Accepted() && Stale(q, c) == [] && Claimed(q, c) == []
  }

  lemma IdleOrProgress(q: Queue, c: Claim)
    requires c.Accepted()
    ensures Work(Poll(q, c), c.now) < Work(q, c.now) || (Idle(q, c) && Poll(q, c) == q)
  {
    PollProgress(q, c);
  }

  // ---------------------------------------------------------------- rounds

  function After(q: Queue, polls: seq<Claim>): Queue {
    if polls == [] then q else Apply(After(q, polls[..|polls| - 1]), PollDue(polls[|polls| - 1]))
  }

  /** How many entries the polls hand out. */
  function Handouts(q: Queue, polls: seq<Claim>): nat {
    if polls == [] then 0
    else
      var front, last := polls[..|polls| - 1], polls[|polls| - 1];
      Handouts(q, front) + if last.Accepted() then |Claimed(After(q, front), last)| else 0
  }

  /** Polls at one instant, whatever their batch sizes and their order, that reach every partition. */
  predicate Round(polls: seq<Claim>, now: int, count: int) {
    && count >= 1
    && (forall i :: 0 <= i < |polls| ==> polls[i].Accepted() && polls[i].now == now && polls[i].count == count)
    && forall p :: 0 <= p < count ==> Polled(polls, p)
  }

  predicate Polled(polls: seq<Claim>, p: int) {
    exists i :: 0 <= i < |polls| && polls[i].index == p
  }

  predicate SameInstant(polls: seq<Claim>, now: int) {
    forall i :: 0 <= i < |polls| ==> polls[i].Accepted() && polls[i].now == now
  }

  lemma LastPoll(q: Queue, polls: seq<Claim>, now: int)
    requires SameInstant(polls, now) && polls != []
    ensures var mid, last := After(q, polls[..|polls| - 1]), polls[|polls| - 1];
            || Work(After(q, polls), now) < Work(mid, now)
            || (Idle(mid, last) && After(q, polls) == mid)
  {
    IdleOrProgress(After(q, polls[..|polls| - 1]), polls[|polls| - 1]);
  }

  lemma {:induction false} SameOrProgress(q: Queue, polls: seq<Claim>, now: int)
    requires SameInstant(polls, now)
    ensures Work(After(q, polls), now) < Work(q, now) || After(q, polls) == q
  {
    if polls != [] {
      SameOrProgress(q, polls[..|polls| - 1], now);
      LastPoll(q, polls, now);
    }
  }

  /** One poll that has something to do at the start makes the whole sequence progress. */
  lemma {:induction false} PollsProgress(q: Queue, polls: seq<Claim>, now: int, i: nat)
    requires SameInstant(polls, now) && i < |polls| && !Idle(q, polls[i])
    ensures Work(After(q, polls), now) < Work(q, now)
  {
    var front := polls[..|polls| - 1];
    LastPoll(q, polls, now);
    if i < |front| {
      assert front[i] == polls[i];
      PollsProgress(q, front, now, i);
    } else {
      SameOrProgress(q, front, now);
    }
  }

  /** Whatever the scan window, the partition of the first entry has something to do. */
  lemma SomePartitionActs(q: Queue, now: int, count: int) returns (p: int)
    requires count >= 1 && Work(q, now) > 0
    ensures 0 <= p < count
    ensures forall c: Claim :: c.Accepted() && c.now == now && c.count == count && c.index == p ==>
              !Idle(q, c)
  {
    var first: Member;
    if StaleNow(q, now) != {} {
      first := LeastExists(q.inflight, StaleNow(q, now));
    } else {
      first := LeastExists(q.pending, DueNow(q, now));
    }
    p := PartitionOf(first, count);
    forall c: Claim | c.Accepted() && c.now == now && c.count == count && c.index == p
      ensures !Idle(q, c)
    {
      FirstActs(q, c, first);
    }
  }

  lemma FirstActs(q: Queue, c: Claim, first: Member)
    requires c.Accepted() && c.Mine(first)
    requires if StaleNow(q, c.now) != {} then IsLeast(q.inflight, StaleNow(q, c.now), first)
             else IsLeast(q.pending, DueNow(q, c.now), first)
    ensures !Idle(q, c)
  {
    if StaleNow(q, c.now) != {} {
      NothingEarlier(q.inflight, StaleNow(q, c.now), first);
      StaleExactly(q, c, first);
    } else if Stale(q, c) == [] {
      NothingEarlier(q.pending, DueNow(q, c.now), first);
      NothingEarlier(q.pending, OfPartition(DueNow(q, c.now), c), first);
      ClaimedExactly(q, c, first);
    }
  }

  lemma NothingEarlier(z: ZSet, keys: set<Member>, m: Member)
    requires keys <= z.Keys && IsLeast(z, keys, m)
    ensures Earlier(z, keys, m) == {}
  {
    forall k | k in keys ensures k !in Earlier(z, keys, m) {
      BeforeTotal(z, k, m);
    }
  }

  /** A round with anything left to do makes progress. */
  lemma RoundProgress(q: Queue, polls: seq<Claim>, now: int, count: int)
    requires Round(polls, now, count) && Work(q, now) > 0
    ensures Work(After(q, polls), now) < Work(q, now)
  {
    var p := SomePartitionActs(q, now, count);
    assert Polled(polls, p);
    var i :| 0 <= i < |polls| && polls[i].index == p;
    PollsProgress(q, polls, now, i);
  }

  function AfterRounds(q: Queue, rounds: seq<seq<Claim>>): Queue
    decreases |rounds|
  {
    if rounds == [] then q else AfterRounds(After(q, rounds[0]), rounds[1..])
  }

  /** As many rounds as there is work leave nothing due and no stale claim. */
  lemma {:induction false} RoundsDrain(q: Queue, rounds: seq<seq<Claim>>, now: int, count: int)
    requires forall r :: 0 <= r < |rounds| ==> Round(rounds[r], now, count)
    requires |rounds| >= Work(q, now)
    ensures DueNow(AfterRounds(q, rounds), now) == {} && StaleNow(AfterRounds(q, rounds), now) == {}
    decreases |rounds|
  {
    if rounds != [] {
      if Work(q, now) > 0 {
        RoundProgress(q, rounds[0], now, count);
      } else {
        SameOrProgress(q, rounds[0], now);
      }
      RoundsDrain(After(q, rounds[0]), rounds[1..], now, count);
    }
  }

  // ---------------------------------------------------------------- where the entries went

  /** Handed out at `now`, or still waiting to be. */
  predicate Accounted(q: Queue, id: Member, now: int) {
    id in DueNow(q, now) || id in StaleNow(q, now) || (id in q.inflight && q.inflight[id] == now + VISIBILITY)
  }

  lemma {:induction false} PollsAccount(q: Queue, polls: seq<Claim>, id: Member, now: int)
    requires SameInstant(polls, now) && Accounted(q, id, now)
    ensures Accounted(After(q, polls), id, now)
  {
    if polls != [] {
      var front, last := polls[..|polls| - 1], polls[|polls| - 1];
      PollsAccount(q, front, id, now);
      PollEntries(After(q, front), last);
      StaleFacts(After(q, front), last);
      ClaimedFacts(After(q, front), last);
    }
  }

  lemma {:induction false} RoundsAccount(q: Queue, rounds: seq<seq<Claim>>, id: Member, now: int)
    requires forall r :: 0 <= r < |rounds| ==> SameInstant(rounds[r], now)
    requires Accounted(q, id, now)
    ensures Accounted(AfterRounds(q, rounds), id, now)
    decreases |rounds|
  {
    if rounds != [] {
      PollsAccount(q, rounds[0], id, now);
      RoundsAccount(After(q, rounds[0]), rounds[1..], id, now);
    }
  }

  /** Enough rounds hand out every id that was due or had gone stale. */
  lemma EveryDueEntryHandedOut(q: Queue, rounds: seq<seq<Claim>>, now: int, count: int, id: Member)
    requires forall r :: 0 <= r < |rounds| ==> Round(rounds[r], now, count)
    requires |rounds| >= Work(q, now)
    requires id in DueNow(q, now) || id in StaleNow(q, now)
    ensures var end := AfterRounds(q, rounds); id in end.inflight && end.inflight[id] == now + VISIBILITY
  {
    RoundsDrain(q, rounds, now, count);
    RoundsAccount(q, rounds, id, now);
  }

  /** In particular an id that was added with this release time or an earlier one, whatever the queue held. */
  lemma AddedIsHandedOut(q: Queue, id: Member, releaseAt: int, rounds: seq<seq<Claim>>, now: int, count: int)
    requires releaseAt <= now
    requires forall r :: 0 <= r < |rounds| ==> Round(rounds[r], now, count)
    requires |rounds| >= Work(QueueRuns.Apply(q, QueueRuns.Add(id, releaseAt)), now)
    ensures var end := AfterRounds(QueueRuns.Apply(q, QueueRuns.Add(id, releaseAt)), rounds);
            id in end.inflight && end.inflight[id] == now + VISIBILITY
  {
    EveryDueEntryHandedOut(QueueRuns.Apply(q, QueueRuns.Add(id, releaseAt)), rounds, now, count, id);
  }

  // ---------------------------------------------------------------- handouts

  /** Every handout shortens the backlog, so at one instant there are no more of them than it is long. */
  lemma {:induction false} HandoutsShrinkBacklog(q: Queue, polls: seq<Claim>, now: int)
    requires SameInstant(polls, now)
    ensures Backlog(After(q, polls), now) + Handouts(q, polls) <= Backlog(q, now)
  {
    if polls != [] {
      var front, last := polls[..|polls| - 1], polls[|polls| - 1];
      HandoutsShrinkBacklog(q, front, now);
      PollProgress(After(q, front), last);
    }
  }
}
