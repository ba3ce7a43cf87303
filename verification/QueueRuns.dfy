/**
 What any run of the expiry queue keeps: nothing is lost, partitions do not touch each other, a
 claim is not handed out twice too early, and polling every partition drains what is due.
 */
module QueueRuns {
  import opened Prelude
  import opened ExpiryPartition
  import opened SortedSets
  import opened ExpiryQueue

  // ---------------------------------------------------------------- one poll

  lemma {:induction false} FilterMembers(s: seq<Member>, c: Claim)
    requires c.Accepted()
    ensures forall m :: m in Filter(s, c) <==> m in s && c.Mine(m)
  {
    if s != [] {
      var front, last := s[..|s| - 1], s[|s| - 1];
      assert s == front + [last];
      FilterMembers(front, c);
    }
  }

  lemma {:induction false} FilterSorted(z: ZSet, s: seq<Member>, c: Claim)
    requires c.Accepted() && Sorted(z, s)
    ensures Sorted(z, Filter(s, c))
  {
    if s != [] {
      var front, last := s[..|s| - 1], s[|s| - 1];
      FilterSorted(z, front, c);
      FilterMembers(front, c);
      forall k | k in front ensures Before(z, k, last) {
        var i :| 0 <= i < |front| && front[i] == k;
        assert Before(z, s[i], s[|s| - 1]);
      }
    }
  }

  /** The keys listed before `m`. */
  function Earlier(z: ZSet, keys: set<Member>, m: Member): set<Member>
    requires keys <= z.Keys && m in z
  {
    set k | k in keys && Before(z, k, m)
  }

  /** Position in a listing is the number of keys that come before. */
  lemma TakeByRank(z: ZSet, s: seq<Member>, keys: set<Member>, m: Member, n: nat)
    requires Sorted(z, s) && keys <= z.Keys && m in keys
    requires forall k :: k in s <==> k in keys
    ensures m in Take(s, n) <==> |Earlier(z, keys, m)| < n
  {
    SortedDistinct(z, s);
    var i :| 0 <= i < |s| && s[i] == m;
    var front := s[..i];
    DistinctSize(front);
    forall k ensures k in front <==> k in Earlier(z, keys, m) {
      if k in keys {
        var j :| 0 <= j < |s| && s[j] == k;
        BeforeTotal(z, k, m);
        assert k in front <==> j < i by {
          if j < i { assert front[j] == k; }
        }
      }
    }
    assert Earlier(z, keys, m) == set k | k in front;
    assert i < n ==> m in Take(s, n) by {
      if i < n { assert Take(s, n)[i] == m; }
    }
  }

  lemma {:induction false} DistinctSize(s: seq<Member>)
    requires forall i, j :: 0 <= i < j < |s| ==> s[i] != s[j]
    ensures |set m | m in s| == |s|
  {
    if s != [] {
      var front, last := s[..|s| - 1], s[|s| - 1];
      DistinctSize(front);
      assert (set m | m in s) == (set m | m in front) + {last};
      assert last !in front;
    }
  }

  /** The members of one partition among `keys`. */
  function OfPartition(keys: set<Member>, c: Claim): set<Member>
    requires c.Accepted()
  {
    set m | m in keys && c.Mine(m)
  }

  lemma RangeByRank(z: ZSet, bound: int, m: Member, n: nat)
    ensures m in Range(z, bound, n) <==> m in Due(z, bound) && |Earlier(z, Due(z, bound), m)| < n
  {
    var keys := Due(z, bound);
    OrderedFacts(z, keys);
    RangeFacts(z, bound, n);
    if m in keys {
      TakeByRank(z, Ordered(z, keys), keys, m, n);
    }
  }

  /** Exactly the partition's overdue claims within the scan window come back. */
  lemma StaleExactly(q: Queue, c: Claim, m: Member)
    requires c.Accepted()
    ensures m in Stale(q, c) <==>
              var due := Due(q.inflight, c.now - VISIBILITY);
              m in due && c.Mine(m) && |Earlier(q.inflight, due, m)| < c.Scan()
  {
    RangeByRank(q.inflight, c.now - VISIBILITY, m, c.Scan());
    FilterMembers(Range(q.inflight, c.now - VISIBILITY, c.Scan()), c);
  }

  /**
   Exactly these are claimed: the due entries of the partition with fewer than `Scan()` due entries
   and fewer than `Limit()` due entries of the partition in front of them.
   */
  lemma ClaimedExactly(q: Queue, c: Claim, m: Member)
    requires c.Accepted()
    ensures m in Claimed(q, c) <==>
              var z := Restored(q, c).pending;
              var due := Due(z, c.now);
              && m in due && c.Mine(m)
              && |Earlier(z, due, m)| < c.Scan()
              && |Earlier(z, OfPartition(due, c), m)| < c.Limit()
  {
    var z := Restored(q, c).pending;
    var due := Due(z, c.now);
    var scan := Range(z, c.now, c.Scan());
    var mine := Filter(scan, c);
    RangeFacts(z, c.now, c.Scan());
    FilterMembers(scan, c);
    FilterSorted(z, scan, c);
    RangeByRank(z, c.now, m, c.Scan());
    if m in mine {
      var keys := set k | k in mine;
      TakeByRank(z, mine, keys, m, c.Limit());
      forall k | k in OfPartition(due, c) && Before(z, k, m) ensures k in keys {
        RangeByRank(z, c.now, k, c.Scan());
        EarlierShrinks(z, due, k, m);
      }
      assert Earlier(z, keys, m) == Earlier(z, OfPartition(due, c), m);
    } else {
      assert m !in Take(mine, c.Limit());
    }
  }

  lemma EarlierShrinks(z: ZSet, keys: set<Member>, k: Member, m: Member)
    requires keys <= z.Keys && k in z && m in z && Before(z, k, m)
    ensures |Earlier(z, keys, k)| <= |Earlier(z, keys, m)|
  {
    forall x | x in Earlier(z, keys, k) ensures x in Earlier(z, keys, m) {
      BeforeTransitive(z, x, k, m);
    }
    SubsetSize(Earlier(z, keys, k), Earlier(z, keys, m));
  }

  lemma StaleFacts(q: Queue, c: Claim)
    requires c.Accepted()
    ensures forall m :: m in Stale(q, c) ==> m in Due(q.inflight, c.now - VISIBILITY) && c.Mine(m)
    ensures Sorted(q.inflight, Stale(q, c))
  {
    RangeFacts(q.inflight, c.now - VISIBILITY, c.Scan());
    FilterMembers(Range(q.inflight, c.now - VISIBILITY, c.Scan()), c);
    FilterSorted(q.inflight, Range(q.inflight, c.now - VISIBILITY, c.Scan()), c);
  }

  lemma ClaimedFacts(q: Queue, c: Claim)
    requires c.Accepted()
    ensures forall m :: m in Claimed(q, c) ==> m in Due(Restored(q, c).pending, c.now) && c.Mine(m)
    ensures Sorted(Restored(q, c).pending, Claimed(q, c))
    ensures |Claimed(q, c)| <= c.Limit()
  {
    var z := Restored(q, c).pending;
    RangeFacts(z, c.now, c.Scan());
    FilterMembers(Range(z, c.now, c.Scan()), c);
    FilterSorted(z, Range(z, c.now, c.Scan()), c);
  }

  lemma RestoredEntries(q: Queue, c: Claim)
    requires c.Accepted()
    ensures var s, r := Stale(q, c), Restored(q, c);
            && r.pending.Keys == q.pending.Keys + (set m | m in s)
            && r.inflight.Keys == q.inflight.Keys - (set m | m in s)
            && (forall m :: m in r.pending ==> r.pending[m] == if m in s then c.now else q.pending[m])
            && (forall m :: m in r.inflight ==> r.inflight[m] == q.inflight[m])
  {
    WithFacts(q.pending, Stale(q, c), c.now);
    WithoutFacts(q.inflight, Stale(q, c));
  }

  lemma ClaimedEntries(q: Queue, c: Claim)
    requires c.Accepted()
    ensures var d, r, p := Claimed(q, c), Restored(q, c), Poll(q, c);
            && p.pending.Keys == r.pending.Keys - (set m | m in d)
            && p.inflight.Keys == r.inflight.Keys + (set m | m in d)
            && (forall m :: m in p.pending ==> p.pending[m] == r.pending[m])
            && (forall m :: m in p.inflight ==> p.inflight[m] == if m in d then c.now + VISIBILITY else r.inflight[m])
  {
    var r := Restored(q, c);
    WithFacts(r.inflight, Claimed(q, c), c.now + VISIBILITY);
    WithoutFacts(r.pending, Claimed(q, c));
  }

  /** The two halves of a poll, entry by entry. */
  lemma PollEntries(q: Queue, c: Claim)
    requires c.Accepted()
    ensures var s, d, r, p := Stale(q, c), Claimed(q, c), Restored(q, c), Poll(q, c);
            && r.pending.Keys == q.pending.Keys + (set m | m in s)
            && r.inflight.Keys == q.inflight.Keys - (set m | m in s)
            && (forall m :: m in r.pending ==> r.pending[m] == if m in s then c.now else q.pending[m])
            && (forall m :: m in r.inflight ==> r.inflight[m] == q.inflight[m])
            && p.pending.Keys == r.pending.Keys - (set m | m in d)
            && p.inflight.Keys == r.inflight.Keys + (set m | m in d)
            && (forall m :: m in p.pending ==> p.pending[m] == r.pending[m])
            && (forall m :: m in p.inflight ==> p.inflight[m] == if m in d then c.now + VISIBILITY else r.inflight[m])
  {
    RestoredEntries(q, c);
    ClaimedEntries(q, c);
  }

  /** Whether `m` has the same entry, or none, in both sets. */
  predicate SameEntry(a: ZSet, b: ZSet, m: Member) {
    (m in a <==> m in b) && (m in a ==> a[m] == b[m])
  }

  /** No entry appears or disappears. */
  lemma PollConserves(q: Queue, c: Claim)
    requires c.Accepted()
    ensures Poll(q, c).pending.Keys + Poll(q, c).inflight.Keys == q.pending.Keys + q.inflight.Keys
  {
    PollEntries(q, c);
    StaleFacts(q, c);
    ClaimedFacts(q, c);
  }

  /** Entries of other partitions are not touched. */
  lemma PollElsewhere(q: Queue, c: Claim, m: Member)
    requires c.Accepted() && !c.Mine(m)
    ensures SameEntry(Poll(q, c).pending, q.pending, m) && SameEntry(Poll(q, c).inflight, q.inflight, m)
  {
    PollEntries(q, c);
    StaleFacts(q, c);
    ClaimedFacts(q, c);
  }

  /** A claimed entry is of the polled partition and is hidden for one visibility timeout. */
  lemma ClaimHides(q: Queue, c: Claim, m: Member)
    requires c.Accepted() && m in Claimed(q, c)
    ensures c.Mine(m) && m !in Poll(q, c).pending
    ensures m in Poll(q, c).inflight && Poll(q, c).inflight[m] == c.now + VISIBILITY
  {
    PollEntries(q, c);
    ClaimedFacts(q, c);
  }

  /** However the queue changed in between, two workers that were handed the same id poll the same partition. */
  lemma SamePartition(q: Queue, c: Claim, later: Queue, d: Claim, id: Member)
    requires c.Accepted() && d.Accepted() && c.count == d.count
    requires id in Claimed(q, c) && id in Claimed(later, d)
    ensures c.index == d.index
  {
    ClaimHides(q, c, id);
    ClaimHides(later, d, id);
  }

  /** With plans that tile the partitions, only one process is ever handed a given id. */
  lemma OneProcess(plans: seq<Plan>, q: Queue, c: Claim, later: Queue, d: Claim, id: Member, i: nat, j: nat)
    requires c.Accepted() && d.Accepted() && c.count == d.count && Tile(plans, c.count)
    requires i < |plans| && plans[i].Owns(c.index) && j < |plans| && plans[j].Owns(d.index)
    requires id in Claimed(q, c) && id in Claimed(later, d)
    ensures i == j
  {
    SamePartition(q, c, later, d, id);
    TilesCover(plans, c.count, c.index);
  }

  // ---------------------------------------------------------------- redelivery

  datatype Op = Add(id: Member, releaseAt: int) | Remove(id: Member) | PollDue(claim: Claim)

  function Apply(q: Queue, op: Op): Queue {
    match op
    case Add(id, at) => q.(pending := q.pending[id := at])
    case Remove(id) => Dropped(q, id)
    case PollDue(c) => if c.Accepted() then Poll(q, c) else q
  }

  function Run(q: Queue, ops: seq<Op>): Queue {
    if ops == [] then q else Apply(Run(q, ops[..|ops| - 1]), ops[|ops| - 1])
  }

  /** The id was handed out at second `t`, and has not come back. */
  predicate HeldSince(q: Queue, id: Member, t: int) {
    id !in q.pending && (id in q.inflight ==> q.inflight[id] >= t + VISIBILITY)
  }

  /** The op does not add the id again and polls before twice the timeout of 120 seconds after `t`. */
  predicate Early(op: Op, id: Member, t: int) {
    match op
    case Add(other, _) => other != id
    case Remove(_) => true
    case PollDue(c) => c.now < t + 240
  }

  predicate HandsOut(q: Queue, op: Op, id: Member) {
    op.PollDue? && op.claim.Accepted() && id in Claimed(q, op.claim)
  }

  lemma HeldStep(q: Queue, op: Op, id: Member, t: int)
    requires HeldSince(q, id, t) && Early(op, id, t)
    ensures !HandsOut(q, op, id) && HeldSince(Apply(q, op), id, t)
  {
    if op.PollDue? && op.claim.Accepted() {
      PollEntries(q, op.claim);
      StaleFacts(q, op.claim);
      ClaimedFacts(q, op.claim);
    }
  }

  lemma {:induction false} HeldThrough(q: Queue, ops: seq<Op>, id: Member, t: int)
    requires HeldSince(q, id, t)
    requires forall i :: 0 <= i < |ops| ==> Early(ops[i], id, t)
    ensures HeldSince(Run(q, ops), id, t)
    ensures forall i :: 0 <= i < |ops| ==> !HandsOut(Run(q, ops[..i]), ops[i], id)
  {
    if ops != [] {
      var front := ops[..|ops| - 1];
      HeldThrough(q, front, id, t);
      HeldStep(Run(q, front), ops[|ops| - 1], id, t);
      forall i | 0 <= i < |ops| ensures !HandsOut(Run(q, ops[..i]), ops[i], id) {
        if i < |front| {
          assert front[..i] == ops[..i];
        }
      }
    }
  }

  /**
   A claimed id that nobody adds again is not handed out a second time before twice the visibility
   timeout: the claim pushes the score ahead by one timeout, and only a score one timeout old is stale.
   */
  lemma NotHandedOutAgain(q: Queue, c: Claim, id: Member, ops: seq<Op>)
    requires c.Accepted() && id in Claimed(q, c)
    requires forall i :: 0 <= i < |ops| ==> Early(ops[i], id, c.now)
    ensures forall i :: 0 <= i < |ops| ==> !HandsOut(Run(Poll(q, c), ops[..i]), ops[i], id)
  {
    ClaimHides(q, c, id);
    HeldThrough(Poll(q, c), ops, id, c.now);
  }

  /** And no later than that: a lone unacknowledged claim is handed out exactly then. */
  lemma HandedOutAgain(id: Member, t: int, c: Claim)
    requires c.Accepted() && c.Mine(id) && c.now == t + 240
    ensures HandsOut(Queue(map[], map[id := t + VISIBILITY]), PollDue(c), id)
  {
    var q := Queue(map[], map[id := t + VISIBILITY]);
    assert Due(q.inflight, c.now - VISIBILITY) == {id};
    assert Earlier(q.inflight, {id}, id) == {} by { BeforeTotal(q.inflight, id, id); }
    StaleExactly(q, c, id);
    PollEntries(q, c);
    StaleFacts(q, c);
    var z := Restored(q, c).pending;
    assert Due(z, c.now) == {id};
    assert Earlier(z, {id}, id) == {} by { BeforeTotal(z, id, id); }
    assert OfPartition({id}, c) == {id};
    ClaimedExactly(q, c, id);
  }

  // ---------------------------------------------------------------- removed for good

  predicate NowhereIn(q: Queue, id: Member) {
    id !in q.pending && id !in q.inflight
  }

  lemma NowhereStep(q: Queue, op: Op, id: Member)
    requires NowhereIn(q, id) && (op.Add? ==> op.id != id)
    ensures !HandsOut(q, op, id) && NowhereIn(Apply(q, op), id)
  {
    if op.PollDue? && op.claim.Accepted() {
      PollEntries(q, op.claim);
      StaleFacts(q, op.claim);
      ClaimedFacts(q, op.claim);
    }
  }

  /** An id that was removed, claimed or not, is not handed out by any later poll unless it is added again. */
  lemma {:induction false} RemovedForGood(q: Queue, id: Member, ops: seq<Op>)
    requires forall i :: 0 <= i < |ops| && ops[i].Add? ==> ops[i].id != id
    ensures var r := Apply(q, Remove(id));
            && id !in Run(r, ops).pending && id !in Run(r, ops).inflight
            && forall i :: 0 <= i < |ops| ==> !HandsOut(Run(r, ops[..i]), ops[i], id)
  {
    if ops != [] {
      var r, front := Apply(q, Remove(id)), ops[..|ops| - 1];
      RemovedForGood(q, id, front);
      NowhereStep(Run(r, front), ops[|ops| - 1], id);
      forall i | 0 <= i < |ops| ensures !HandsOut(Run(r, ops[..i]), ops[i], id) {
        if i < |front| {
          assert front[..i] == ops[..i];
        }
      }
    }
  }

  /** An acknowledged id was removed. */
  lemma AckedIsRemoved(q: Queue, ids: seq<Member>, outcome: Member -> Outcome, id: Member)
    ensures var r := AfterAcks(q, ids, outcome);
            if id in ids && outcome(id).Acked? then NowhereIn(r, id)
            else SameEntry(r.pending, q.pending, id) && SameEntry(r.inflight, q.inflight, id)
  {
  }
}
