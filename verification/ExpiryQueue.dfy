/**
 The queue of reservation expiries: entries wait in `pending` until due, and a claimed entry sits in
 `inflight` until it is removed or its visibility timeout has passed.
 */
module ExpiryQueue {
  import opened Prelude
  import opened ExpiryPartition
  import opened SortedSets

  const VISIBILITY := 120
  const POLL_BATCH := 100
  const SCAN_MULTIPLIER := 10
  const SCAN_MAX := 1000

  datatype Queue = Queue(pending: ZSet, inflight: ZSet)

  /** One poll, at Unix second `now`, for one partition. */
  datatype Claim = Claim(now: int, limit: int, index: int, count: int)
  {
    predicate Accepted() {
      count >= 1 && 0 <= index < count
    }

    function Limit(): (n: nat)
      ensures n >= 1
    {
      if limit <= 0 then POLL_BATCH else limit
    }

    function Scan(): (n: nat)
      ensures n >= Limit()
    {
      var scan := Limit() * SCAN_MULTIPLIER;
      var capped := if scan > SCAN_MAX then SCAN_MAX else scan;
      if capped < Limit() then Limit() else capped
    }

    predicate Mine(m: Member)
      requires Accepted()
    {
      PartitionOf(m, count) == index
    }
  }

  datatype PollError = NotConnected | BadCount | BadIndex

  // ---------------------------------------------------------------- the poll, on values

  /** The members of one partition, in the order they appear. */
  function Filter(s: seq<Member>, c: Claim): seq<Member>
    requires c.Accepted()
  {
    if s == [] then []
    else
      var front, last := s[..|s| - 1], s[|s| - 1];
      Filter(front, c) + if c.Mine(last) then [last] else []
  }

  /** What one poll takes back from workers that never acknowledged. */
  function Stale(q: Queue, c: Claim): seq<Member>
    requires c.Accepted()
  {
    Filter(Range(q.inflight, c.now - VISIBILITY, c.Scan()), c)
  }

  function Restored(q: Queue, c: Claim): Queue
    requires c.Accepted()
  {
    Queue(With(q.pending, Stale(q, c), c.now), Without(q.inflight, Stale(q, c)))
  }

  /** What one poll hands out. */
  function Claimed(q: Queue, c: Claim): seq<Member>
    requires c.Accepted()
  {
    Handed(Restored(q, c).pending, c)
  }

  function Handed(pending: ZSet, c: Claim): seq<Member>
    requires c.Accepted()
  {
    Take(Filter(Range(pending, c.now, c.Scan()), c), c.Limit())
  }

  function Poll(q: Queue, c: Claim): Queue
    requires c.Accepted()
  {
    var r := Restored(q, c);
    Queue(Without(r.pending, Claimed(q, c)), With(r.inflight, Claimed(q, c), c.now + VISIBILITY))
  }

  function Dropped(q: Queue, id: Member): Queue {
    Queue(q.pending - {id}, q.inflight - {id})
  }

  lemma FilterStep(s: seq<Member>, c: Claim, i: nat)
    requires c.Accepted() && i < |s|
    ensures Filter(s[..i + 1], c) == if c.Mine(s[i]) then Filter(s[..i], c) + [s[i]] else Filter(s[..i], c)
  {
    assert s[..i + 1][..i] == s[..i];
  }

  /** One turn of the restoring loop. */
  lemma RestoreStep(q: Queue, s: seq<Member>, c: Claim, i: nat)
    requires c.Accepted() && i < |s|
    ensures var done, next := Filter(s[..i], c), Filter(s[..i + 1], c);
            if c.Mine(s[i]) then
              && With(q.pending, next, c.now) == With(q.pending, done, c.now)[s[i] := c.now]
              && Without(q.inflight, next) == Without(q.inflight, done) - {s[i]}
            else next == done
  {
    FilterStep(s, c, i);
    CommandStep(q.inflight, Filter(s[..i], c), s[i], c.now);
    CommandStep(q.pending, Filter(s[..i], c), s[i], c.now);
  }

  lemma {:induction false} FilterPrefix(s: seq<Member>, c: Claim, i: nat)
    requires c.Accepted() && i <= |s|
    ensures Filter(s[..i], c) <= Filter(s, c)
  {
    if i < |s| {
      var front := s[..|s| - 1];
      FilterPrefix(front, c, i);
      assert front[..i] == s[..i];
    } else {
      assert s[..i] == s;
    }
  }

  lemma BatchFull(s: seq<Member>, c: Claim, i: nat)
    requires c.Accepted() && i <= |s|
    requires |Filter(s[..i], c)| == c.Limit() || (i == |s| && |Filter(s, c)| <= c.Limit())
    ensures Take(Filter(s, c), c.Limit()) == Filter(s[..i], c)
  {
    FilterPrefix(s, c, i);
    assert s[..|s|] == s;
  }

  /** What happens to one claimed id: it may not parse, its release or its acknowledgement may fail. */
  datatype Outcome = Malformed | ReleaseFailed | AckFailed | Acked

  function AfterAcks(q: Queue, ids: seq<Member>, outcome: Member -> Outcome): Queue {
    var gone := set m | m in ids && outcome(m).Acked?;
    Queue(q.pending - gone, q.inflight - gone)
  }

  class ExpiryQueue {
    const connected: bool
    var pending: ZSet
    var inflight: ZSet

    constructor (connected: bool)
      ensures this.connected == connected && State() == Queue(map[], map[])
    {
      this.connected := connected;
      pending, inflight := map[], map[];
    }

    ghost function State(): Queue
      reads this
    {
      Queue(pending, inflight)
    }

    /** False when there is no Redis connection. */
    method Add(id: Member, releaseAt: int) returns (ok: bool)
      modifies this
      ensures ok == connected
      ensures State() == if ok then old(State()).(pending := old(pending)[id := releaseAt]) else old(State())
    {
      if !connected { return false; }
      pending := pending[id := releaseAt];
      ok := true;
    }

    /** Without a connection there is nothing to remove, and no error. */
    method Remove(id: Member)
      modifies this
      ensures State() == if connected then Dropped(old(State()), id) else old(State())
    {
      if connected {
        pending := pending - {id};
        inflight := inflight - {id};
      }
    }

    method PollDue(c: Claim) returns (r: Result<seq<Member>, PollError>)
      modifies this
      ensures r.Success? <==> connected && c.Accepted()
      ensures !connected ==> r == Failure(NotConnected)
      ensures connected && c.count <= 0 ==> r == Failure(BadCount)
      ensures connected && c.count >= 1 && !c.Accepted() ==> r == Failure(BadIndex)
      ensures r.Failure? ==> State() == old(State())
      ensures r.Success? ==> r.value == Claimed(old(State()), c) && State() == Poll(old(State()), c)
    {
      if !connected { return Failure(NotConnected); }
      if c.count <= 0 { return Failure(BadCount); }
      if c.index < 0 || c.index >= c.count { return Failure(BadIndex); }
      RestoreStale(c);
      var ids := ClaimDue(c);
      return Success(ids);
    }

    /** The first loop of the claim script. */
    method RestoreStale(c: Claim)
      requires c.Accepted()
      modifies this
      ensures State() == Restored(old(State()), c)
    {
      var stale := Range(inflight, c.now - VISIBILITY, c.Scan());
      var i := 0;
      while i < |stale|
        invariant 0 <= i <= |stale|
        invariant inflight == Without(old(inflight), Filter(stale[..i], c))
        invariant pending == With(old(pending), Filter(stale[..i], c), c.now)
      {
        RestoreStep(old(State()), stale, c, i);
        if c.Mine(stale[i]) {
          inflight := inflight - {stale[i]};
          pending := pending[stale[i] := c.now];
        }
        i := i + 1;
      }
      assert stale[..|stale|] == stale;
    }

    /** The second loop of the claim script, which stops as soon as the batch is full. */
    method ClaimDue(c: Claim) returns (claimed: seq<Member>)
      requires c.Accepted()
      modifies this
      ensures claimed == Handed(old(pending), c)
      ensures State() == Queue(Without(old(pending), claimed), With(old(inflight), claimed, c.now + VISIBILITY))
    {
      var candidates := Range(pending, c.now, c.Scan());
      claimed := [];
      var i := 0;
      while i < |candidates|
        invariant 0 <= i <= |candidates|
        invariant claimed == Filter(candidates[..i], c) && |claimed| < c.Limit()
        invariant pending == Without(old(pending), claimed)
        invariant inflight == With(old(inflight), claimed, c.now + VISIBILITY)
      {
        var id := candidates[i];
        FilterStep(candidates, c, i);
        if c.Mine(id) {
          CommandStep(old(pending), claimed, id, c.now + VISIBILITY);
          CommandStep(old(inflight), claimed, id, c.now + VISIBILITY);
          pending := pending - {id};
          inflight := inflight[id := c.now + VISIBILITY];
          claimed := claimed + [id];
          if |claimed| >= c.Limit() {
            BatchFull(candidates, c, i + 1);
            return;
          }
        }
        i := i + 1;
      }
      assert candidates[..i] == candidates;
      BatchFull(candidates, c, i);
    }

    /** One tick of a release worker: what was acknowledged is gone, what failed stays in flight. */
    method ProcessDue(now: int, index: int, count: int, outcome: Member -> Outcome)
      modifies this
      ensures var c := Claim(now, POLL_BATCH, index, count);
              State() == if connected && c.Accepted()
                         then AfterAcks(Poll(old(State()), c), Claimed(old(State()), c), outcome)
                         else old(State())
    {
      var r := PollDue(Claim(now, POLL_BATCH, index, count));
      if r.Success? {
        Acknowledge(r.value, outcome);
      }
    }

    method Acknowledge(ids: seq<Member>, outcome: Member -> Outcome)
      requires connected
      modifies this
      ensures State() == AfterAcks(old(State()), ids, outcome)
    {
      var i := 0;
      while i < |ids|
        invariant 0 <= i <= |ids|
        invariant State() == AfterAcks(old(State()), ids[..i], outcome)
      {
        AcksStep(old(State()), ids, outcome, i);
        if outcome(ids[i]).Acked? {
          Remove(ids[i]);
        }
        i := i + 1;
      }
      assert ids[..|ids|] == ids;
    }
  }

  lemma AcksStep(q: Queue, ids: seq<Member>, outcome: Member -> Outcome, i: nat)
    requires i < |ids|
    ensures AfterAcks(q, ids[..i + 1], outcome)
         == if outcome(ids[i]).Acked? then Dropped(AfterAcks(q, ids[..i], outcome), ids[i])
            else AfterAcks(q, ids[..i], outcome)
  {
    assert ids[..i + 1] == ids[..i] + [ids[i]];
  }
}
