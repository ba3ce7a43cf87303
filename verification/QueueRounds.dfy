/**
 When a round of polls over every partition is sure to hand something out. Ids that are due and, from
 an earlier delivery, also stale claims are the only danger, and it takes a whole scan window of them.
 */
module QueueRounds {
  import opened Prelude
  import opened ExpiryPartition
  import opened SortedSets
  import opened ExpiryQueue
  import opened QueueRuns
  import opened QueueDrain

  /** The ids that are both due and stale claims. */
  function Doubled(q: Queue, now: int): set<Member> {
    DueNow(q, now) * StaleNow(q, now)
  }

  // ---------------------------------------------------------------- polls that claim nothing

  /**
   More due entries stand before every due entry of partition `p` than there are doubled ids, which
   are the only ones that may yet move behind it.
   */
  predicate Shadowed(q: Queue, now: int, count: int, p: int)
    requires count >= 1
  {
    forall m :: m in DueNow(q, now) && PartitionOf(m, count) == p ==>
      |Earlier(q.pending, DueNow(q, now), m)| > |Doubled(q, now)|
  }

  /** Such a poll only adds to the due entries, and what it restores is no longer doubled. */
  lemma IdleSets(q: Queue, c: Claim)
    requires c.Accepted() && Claimed(q, c) == []
    ensures DueNow(Poll(q, c), c.now) == DueNow(q, c.now) + StaleSet(q, c)
    ensures Doubled(Poll(q, c), c.now) == Doubled(q, c.now) - StaleSet(q, c)
    ensures DueNow(q, c.now) * StaleSet(q, c) <= Doubled(q, c.now)
  {
    PollInside(q, c);
    PollSets(q, c);
    assert ClaimedSet(q, c) == {};
  }

  lemma IdleEarlier(q: Queue, c: Claim, m: Member)
    requires c.Accepted() && Claimed(q, c) == [] && m in DueNow(Poll(q, c), c.now) && !c.Mine(m)
    ensures m in DueNow(q, c.now)
    ensures Earlier(q.pending, DueNow(q, c.now), m) - StaleSet(q, c)
         <= Earlier(Poll(q, c).pending, DueNow(Poll(q, c), c.now), m)
  {
    IdleSets(q, c);
    StaleFacts(q, c);
    PollEntries(q, c);
  }

  lemma ShadowStays(q: Queue, c: Claim, p: int)
    requires c.Accepted() && Claimed(q, c) == [] && p != c.index && Shadowed(q, c.now, c.count, p)
    ensures Shadowed(Poll(q, c), c.now, c.count, p)
  {
    var r, moved := Poll(q, c), DueNow(q, c.now) * StaleSet(q, c);
    IdleSets(q, c);
    forall m | m in DueNow(r, c.now) && PartitionOf(m, c.count) == p
      ensures |Earlier(r.pending, DueNow(r, c.now), m)| > |Doubled(r, c.now)|
    {
      IdleEarlier(q, c, m);
      var before := Earlier(q.pending, DueNow(q, c.now), m);
      SubsetSize(before - StaleSet(q, c), Earlier(r.pending, DueNow(r, c.now), m));
      Moving(before, Doubled(q, c.now), StaleSet(q, c), DueNow(q, c.now));
    }
  }

  /** What leaves the entries before `m` leaves the doubled ids too. */
  lemma Moving(before: set<Member>, doubled: set<Member>, s: set<Member>, due: set<Member>)
    requires before <= due && due * s <= doubled && |before| > |doubled|
    ensures |before - s| > |doubled - s|
  {
    assert before == (before - s) + before * s;
    assert doubled == (doubled - s) + doubled * s;
    SubsetSize(before * s, doubled * s);
  }

  /** With one partition, a poll claims nothing only if nothing is due after its restores. */
  lemma OnePartition(q: Queue, c: Claim)
    requires c.Accepted() && c.count == 1 && Claimed(q, c) == []
    ensures DueNow(Poll(q, c), c.now) == {}
  {
    var r := Poll(q, c);
    var due := DueNow(r, c.now);
    assert r.pending == Restored(q, c).pending;
    if due != {} {
      var l := LeastExists(r.pending, due);
      assert OfPartition(due, c) == due;
      NothingEarlier(r.pending, due, l);
      ClaimedExactly(q, c, l);
      assert false;
    }
  }

  /** A poll that claims nothing has its partition's entries outside its scan, or there are none. */
  lemma ShadowMade(q: Queue, c: Claim)
    requires c.Accepted() && Claimed(q, c) == []
    requires c.count == 1 || |Doubled(q, c.now)| < c.Scan()
    ensures Shadowed(Poll(q, c), c.now, c.count, c.index)
  {
    var r := Poll(q, c);
    var due := DueNow(r, c.now);
    IdleSets(q, c);
    SubsetSize(Doubled(r, c.now), Doubled(q, c.now));
    assert r.pending == Restored(q, c).pending;
    assert forall m :: m in due && PartitionOf(m, c.count) == c.index <==> m in OfPartition(due, c);
    if c.count == 1 {
      OnePartition(q, c);
    } else if OfPartition(due, c) != {} {
      var l := LeastExists(r.pending, OfPartition(due, c));
      NothingEarlier(r.pending, OfPartition(due, c), l);
      ClaimedExactly(q, c, l);
      forall m | m in due && PartitionOf(m, c.count) == c.index
        ensures |Earlier(r.pending, due, l)| <= |Earlier(r.pending, due, m)|
      {
        if m != l {
          EarlierShrinks(r.pending, due, l, m);
        }
      }
    }
  }

  /** Every poll's scan is longer than the list of doubled ids, or there is one partition only. */
  predicate Outscans(q: Queue, polls: seq<Claim>, now: int, count: int) {
    count == 1 || forall i :: 0 <= i < |polls| ==> |Doubled(q, now)| < polls[i].Scan()
  }

  /** Polls that claim nothing only add to the due entries, and double no id. */
  lemma {:induction false} ClaimlessSets(q: Queue, polls: seq<Claim>, now: int)
    requires SameInstant(polls, now) && Handouts(q, polls) == 0
    ensures DueNow(q, now) <= DueNow(After(q, polls), now)
    ensures Doubled(After(q, polls), now) <= Doubled(q, now)
  {
    if polls != [] {
      var front, last := polls[..|polls| - 1], polls[|polls| - 1];
      ClaimlessSets(q, front, now);
      IdleSets(After(q, front), last);
    }
  }

  lemma ShadowStep(q: Queue, c: Claim, p: int)
    requires c.Accepted() && Claimed(q, c) == []
    requires c.count == 1 || |Doubled(q, c.now)| < c.Scan()
    requires p == c.index || Shadowed(q, c.now, c.count, p)
    ensures Shadowed(Poll(q, c), c.now, c.count, p)
  {
    if p == c.index {
      ShadowMade(q, c);
    } else {
      ShadowStays(q, c, p);
    }
  }

  lemma PolledEarlier(polls: seq<Claim>, p: int)
    requires polls != [] && Polled(polls, p)
    ensures p == polls[|polls| - 1].index || Polled(polls[..|polls| - 1], p)
  {
    var i :| 0 <= i < |polls| && polls[i].index == p;
    if i < |polls| - 1 {
      assert polls[..|polls| - 1][i].index == p;
    }
  }

  lemma {:induction false} ClaimlessShadows(q: Queue, polls: seq<Claim>, now: int, count: int, p: int)
    requires count >= 1 && SameInstant(polls, now) && (forall i :: 0 <= i < |polls| ==> polls[i].count == count)
    requires Outscans(q, polls, now, count) && Handouts(q, polls) == 0 && Polled(polls, p)
    ensures Shadowed(After(q, polls), now, count, p)
  {
    var front, last := polls[..|polls| - 1], polls[|polls| - 1];
    PolledEarlier(polls, p);
    if p != last.index {
      ClaimlessShadows(q, front, now, count, p);
    }
    ClaimlessSets(q, front, now);
    SubsetSize(Doubled(After(q, front), now), Doubled(q, now));
    ShadowStep(After(q, front), last, p);
  }

  /** A round that claims nothing ends, and so began, with nothing due. */
  lemma ClaimlessRound(q: Queue, polls: seq<Claim>, now: int, count: int)
    requires Round(polls, now, count) && Outscans(q, polls, now, count) && Handouts(q, polls) == 0
    ensures DueNow(After(q, polls), now) == DueNow(q, now) == {}
  {
    var end := After(q, polls);
    ClaimlessSets(q, polls, now);
    if DueNow(end, now) != {} {
      var first := LeastExists(end.pending, DueNow(end, now));
      var p := PartitionOf(first, count);
      assert Polled(polls, p);
      ClaimlessShadows(q, polls, now, count, p);
      NothingEarlier(end.pending, DueNow(end, now), first);
      assert false;
    }
  }

  lemma IdleBacklog(q: Queue, c: Claim)
    requires c.Accepted() && Claimed(q, c) == [] && DueNow(Poll(q, c), c.now) == {}
    ensures Backlog(Poll(q, c), c.now) == Backlog(q, c.now)
  {
    PollSets(q, c);
    IdleSets(q, c);
    assert StaleSet(q, c) == {} && ClaimedSet(q, c) == {};
  }

  lemma {:induction false} ClaimlessKeepsBacklog(q: Queue, polls: seq<Claim>, now: int)
    requires SameInstant(polls, now) && Handouts(q, polls) == 0 && DueNow(After(q, polls), now) == {}
    ensures Backlog(After(q, polls), now) == Backlog(q, now)
  {
    if polls != [] {
      var front, last := polls[..|polls| - 1], polls[|polls| - 1];
      IdleSets(After(q, front), last);
      IdleBacklog(After(q, front), last);
      ClaimlessKeepsBacklog(q, front, now);
    }
  }

  /**
   With fewer doubled ids than every scan window is long, or with a single partition, a round with a
   backlog hands out at least one entry.
   */
  lemma {:induction false} RoundHandsOut(q: Queue, polls: seq<Claim>, now: int, count: int)
    requires Round(polls, now, count) && Outscans(q, polls, now, count) && Backlog(q, now) > 0
    ensures Handouts(q, polls) >= 1
    ensures Backlog(After(q, polls), now) < Backlog(q, now)
  {
    HandoutsShrinkBacklog(q, polls, now);
    if Handouts(q, polls) == 0 {
      ClaimlessRound(q, polls, now, count);
      ClaimlessKeepsBacklog(q, polls, now);
      RoundProgress(q, polls, now, count);
      assert false;
    }
  }

  // ---------------------------------------------------------------- a round that hands nothing out

  /** `b` behind `k` zero bytes: an id whose hash is `b`. */
  function Padded(b: Byte, k: nat): (m: Member)
    ensures |m| == k + 1 && Polynomial(m) == b
  {
    if k == 0 then [b] else [0] + Padded(b, k - 1)
  }

  function Family(b: Byte, n: nat): set<Member> {
    if n == 0 then {} else Family(b, n - 1) + {Padded(b, n - 1)}
  }

  lemma {:induction false} FamilyFacts(b: Byte, n: nat)
    ensures |Family(b, n)| == n
    ensures forall m :: m in Family(b, n) ==> Polynomial(m) == b && |m| <= n
  {
    if n > 0 {
      FamilyFacts(b, n - 1);
    }
  }

  /** Any partition below 256 has as many ids as we like. */
  lemma IdsOf(b: Byte, n: nat, count: int) returns (ids: set<Member>)
    requires b < count
    ensures |ids| == n && forall m :: m in ids ==> PartitionOf(m, count) == b
  {
    ids := Family(b, n);
    FamilyFacts(b, n);
    forall m | m in ids ensures PartitionOf(m, count) == b {
      SmallHash(m, b, count);
    }
  }

  lemma SmallHash(m: Member, b: Byte, count: int)
    requires Polynomial(m) == b < count
    ensures PartitionOf(m, count) == b
  {
    assert Polynomial(m) % MODULUS == b && b % count == b;
  }

  lemma {:induction false} SomeOf(s: set<Member>, n: nat) returns (t: set<Member>)
    requires n <= |s|
    ensures t <= s && |t| == n
    decreases |s|
  {
    if n == |s| {
      t := s;
    } else {
      var m :| m in s;
      WithoutOne(s, m);
      t := SomeOf(s - {m}, n);
    }
  }

  /**
   The ids `evens` of partition 0 are due and stale claims; the ids `odds` of partition 1 are due after
   them, and some of those, `echoes`, are stale claims after them too.
   */
  predicate Crossed(q: Queue, now: int, count: int, evens: set<Member>, odds: set<Member>, echoes: set<Member>) {
    && count >= 2 && echoes <= odds
    && (forall m :: m in evens ==> PartitionOf(m, count) == 0)
    && (forall m :: m in odds ==> PartitionOf(m, count) == 1)
    && q.pending.Keys == evens + odds && q.inflight.Keys == evens + echoes
    && (forall m :: m in evens ==> q.pending[m] == now - 2 && q.inflight[m] == now - VISIBILITY - 1)
    && (forall m :: m in odds ==> q.pending[m] == now - 1)
    && (forall m :: m in echoes ==> q.inflight[m] == now - VISIBILITY)
  }

  /** A scan's worth of due entries is in front of the partition's, so the scan finds none of them. */
  lemma CrowdedOut(q: Queue, c: Claim, crowd: set<Member>)
    requires c.Accepted() && |crowd| >= c.Scan()
    requires var z := Restored(q, c).pending;
             && crowd <= Due(z, c.now)
             && forall k, m :: k in crowd && m in Due(z, c.now) && c.Mine(m) ==> z[k] < z[m]
    ensures Claimed(q, c) == []
  {
    var z := Restored(q, c).pending;
    forall m ensures m !in Claimed(q, c) {
      ClaimedExactly(q, c, m);
      if m in Due(z, c.now) && c.Mine(m) {
        SubsetSize(crowd, Earlier(z, Due(z, c.now), m));
      }
    }
    SomeMember(Claimed(q, c));
  }

  lemma SomeMember(s: seq<Member>)
    ensures s == [] || exists m :: m in s
  {
    if s != [] {
      assert s[0] in s;
    }
  }

  /** Polls of the other partitions see nothing but `evens`. */
  lemma OtherPollIdle(q: Queue, c: Claim, evens: set<Member>, odds: set<Member>, echoes: set<Member>)
    requires Crossed(q, c.now, c.count, evens, odds, echoes)
    requires c.Accepted() && c.index != 0 && c.Scan() == |evens|
    ensures Idle(q, c)
  {
    var due := Due(q.inflight, c.now - VISIBILITY);
    forall m ensures m !in Stale(q, c) {
      StaleExactly(q, c, m);
      if m in due && c.Mine(m) {
        SubsetSize(evens, Earlier(q.inflight, due, m));
      }
    }
    SomeMember(Stale(q, c));
    CrowdedOut(q, c, evens);
  }

  lemma EvensComeBack(q: Queue, c: Claim, evens: set<Member>, odds: set<Member>, echoes: set<Member>, m: Member)
    requires Crossed(q, c.now, c.count, evens, odds, echoes)
    requires c.Accepted() && c.index == 0 && c.Scan() == |evens| && m in evens
    ensures m in Stale(q, c)
  {
    var due := Due(q.inflight, c.now - VISIBILITY);
    BeforeTotal(q.inflight, m, m);
    WithoutOne(evens, m);
    SubsetSize(Earlier(q.inflight, due, m), evens - {m});
    StaleExactly(q, c, m);
  }

  /** The poll of partition 0 restores `evens` behind `odds`, which then fill its scan. */
  lemma EvenPollClaimsNothing(q: Queue, c: Claim, evens: set<Member>, odds: set<Member>, echoes: set<Member>)
    requires Crossed(q, c.now, c.count, evens, odds, echoes)
    requires c.Accepted() && c.index == 0 && c.Scan() == |evens| <= |odds|
    ensures Claimed(q, c) == []
  {
    forall m | m in evens ensures m in Stale(q, c) {
      EvensComeBack(q, c, evens, odds, echoes, m);
    }
    PollEntries(q, c);
    StaleFacts(q, c);
    CrowdedOut(q, c, odds);
  }

  /** The polls of partitions `1..k`, one each. */
  function Upward(now: int, limit: int, count: int, k: nat): (polls: seq<Claim>)
    ensures |polls| == k && forall i :: 0 <= i < k ==> polls[i] == Claim(now, limit, i + 1, count)
  {
    if k == 0 then [] else Upward(now, limit, count, k - 1) + [Claim(now, limit, k, count)]
  }

  lemma {:induction false} UpwardIdle(q: Queue, now: int, limit: int, count: int, k: nat,
                                      evens: set<Member>, odds: set<Member>, echoes: set<Member>)
    requires Crossed(q, now, count, evens, odds, echoes) && k < count
    requires Claim(now, limit, 0, count).Scan() == |evens|
    ensures After(q, Upward(now, limit, count, k)) == q && Handouts(q, Upward(now, limit, count, k)) == 0
  {
    if k > 0 {
      var c := Claim(now, limit, k, count);
      UpwardIdle(q, now, limit, count, k - 1, evens, odds, echoes);
      OtherPollIdle(q, c, evens, odds, echoes);
      IdleOrProgress(q, c);
      assert Upward(now, limit, count, k)[..k - 1] == Upward(now, limit, count, k - 1);
    }
  }

  /** One poll of every partition, partition 0 last. */
  function ZeroLast(now: int, limit: int, count: int): seq<Claim>
    requires count >= 1
  {
    Upward(now, limit, count, count - 1) + [Claim(now, limit, 0, count)]
  }

  lemma ZeroLastRound(now: int, limit: int, count: int)
    requires count >= 1
    ensures Round(ZeroLast(now, limit, count), now, count)
  {
    var polls := ZeroLast(now, limit, count);
    forall p | 0 <= p < count ensures Polled(polls, p) {
      assert polls[if p == 0 then count - 1 else p - 1].index == p;
    }
  }

  lemma ZeroLastClaimsNothing(q: Queue, now: int, limit: int, count: int,
                              evens: set<Member>, odds: set<Member>, echoes: set<Member>)
    requires Crossed(q, now, count, evens, odds, echoes)
    requires Claim(now, limit, 0, count).Scan() == |evens| <= |odds|
    ensures Handouts(q, ZeroLast(now, limit, count)) == 0
  {
    var front, last := Upward(now, limit, count, count - 1), Claim(now, limit, 0, count);
    UpwardIdle(q, now, limit, count, count - 1, evens, odds, echoes);
    EvenPollClaimsNothing(q, last, evens, odds, echoes);
    assert ZeroLast(now, limit, count)[..count - 1] == front;
  }

  /** Ids for a crossing: `scan` of partition 0, and `doubled` of partition 1 of which the rest echo. */
  lemma CrossedIds(count: int, scan: nat, doubled: nat)
    returns (evens: set<Member>, odds: set<Member>, echoes: set<Member>)
    requires count >= 2 && doubled >= scan
    ensures |evens| == scan && |odds| == doubled && echoes <= odds && |evens + echoes| == doubled
    ensures forall m :: m in evens ==> PartitionOf(m, count) == 0
    ensures forall m :: m in odds ==> PartitionOf(m, count) == 1
  {
    evens := IdsOf(0, scan, count);
    odds := IdsOf(1, doubled, count);
    echoes := SomeOf(odds, doubled - scan);
    assert evens !! echoes;
  }

  lemma CrossedQueue(now: int, count: int, evens: set<Member>, odds: set<Member>, echoes: set<Member>)
    returns (q: Queue)
    requires count >= 2 && echoes <= odds
    requires forall m :: m in evens ==> PartitionOf(m, count) == 0
    requires forall m :: m in odds ==> PartitionOf(m, count) == 1
    ensures Crossed(q, now, count, evens, odds, echoes)
  {
    assert evens !! odds;
    q := Queue(map m | m in evens + odds :: if m in evens then now - 2 else now - 1,
               map m | m in evens + echoes :: if m in evens then now - VISIBILITY - 1 else now - VISIBILITY);
  }

  lemma CrossedDoubles(q: Queue, now: int, count: int, evens: set<Member>, odds: set<Member>, echoes: set<Member>)
    requires Crossed(q, now, count, evens, odds, echoes)
    ensures Doubled(q, now) == evens + echoes
  {
    forall m ensures m in DueNow(q, now) <==> m in evens + odds {}
    forall m ensures m in StaleNow(q, now) <==> m in evens + echoes {}
  }

  /**
   From a scan window's worth of doubled ids on, and with more than one partition, a whole round may
   hand out nothing: the scans of the others are filled by partition 0, which is then restored behind
   them and misses its own scan too.
   */
  lemma {:induction false} RoundMayHandOutNothing(now: int, limit: int, count: int, doubled: nat)
    returns (q: Queue, polls: seq<Claim>)
    requires count >= 2 && doubled >= Claim(now, limit, 0, count).Scan()
    ensures Round(polls, now, count) && forall i :: 0 <= i < |polls| ==> polls[i].limit == limit
    ensures |Doubled(q, now)| == doubled && Backlog(q, now) > 0 && Handouts(q, polls) == 0
  {
    var scan := Claim(now, limit, 0, count).Scan();
    var evens, odds, echoes := CrossedIds(count, scan, doubled);
    q := CrossedQueue(now, count, evens, odds, echoes);
    CrossedDoubles(q, now, count, evens, odds, echoes);
    polls := ZeroLast(now, limit, count);
    ZeroLastRound(now, limit, count);
    ZeroLastClaimsNothing(q, now, limit, count, evens, odds, echoes);
    SubsetSize(Doubled(q, now), DueNow(q, now));
  }

  /** A round in which every poll has this batch limit. */
  predicate LimitedRound(polls: seq<Claim>, now: int, limit: int, count: int) {
    Round(polls, now, count) && forall i :: 0 <= i < |polls| ==> polls[i].limit == limit
  }

  /** Whatever the queue, if it has a backlog and this many doubled ids, every such round hands something out. */
  ghost predicate SureHandout(now: int, limit: int, count: int, doubled: nat) {
    forall q: Queue, polls: seq<Claim> ::
      (LimitedRound(polls, now, limit, count) && |Doubled(q, now)| == doubled && Backlog(q, now) > 0) ==>
        Handouts(q, polls) >= 1
  }

  /** Exactly when a round is sure to hand something out. */
  lemma {:induction false} HandoutThreshold(now: int, limit: int, count: int, doubled: nat)
    requires count >= 1
    ensures SureHandout(now, limit, count, doubled) <==> count == 1 || doubled < Claim(now, limit, 0, count).Scan()
  {
    if count == 1 || doubled < Claim(now, limit, 0, count).Scan() {
      forall q: Queue, polls: seq<Claim> |
        LimitedRound(polls, now, limit, count) && |Doubled(q, now)| == doubled && Backlog(q, now) > 0
        ensures Handouts(q, polls) >= 1
      {
        assert forall i :: 0 <= i < |polls| ==> polls[i].Scan() == Claim(now, limit, 0, count).Scan();
        RoundHandsOut(q, polls, now, count);
      }
    } else {
      var q, polls := RoundMayHandOutNothing(now, limit, count, doubled);
      assert LimitedRound(polls, now, limit, count);
    }
  }

  /** For the batches of 100 that the release workers ask for, the threshold is a thousand doubled ids. */
  lemma WorkerThreshold(now: int, count: int, doubled: nat)
    requires count >= 1
    ensures SureHandout(now, 100, count, doubled) <==> count == 1 || doubled < 1000
  {
    HandoutThreshold(now, 100, count, doubled);
  }
}
