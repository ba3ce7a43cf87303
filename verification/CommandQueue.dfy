/**
 Command jobs with retries and a dead-letter topic. Booking and purchase commands run the same machine,
 each over its own pair of topics.
 */
module CommandQueue {
  import opened Prelude

  type JobId = nat

  /** `command` is what the job asks for; retries carry it along unchanged. */
  datatype Job = Job(id: JobId, command: int, attempt: nat)

  datatype Status = Pending | Retrying(attempt: nat) | Completed | DeadLettered(attempt: nat)

  /** Which of the two writes of one operation fail: the job status, the message. */
  datatype Faults = Faults(status: bool, message: bool)

  const NO_FAULTS := Faults(false, false)

  datatype QueueError = Unavailable | StatusNotWritten | MessageNotWritten

  /** The topics and statuses, with the jobs whose handler succeeded and those a failed write dropped. */
  datatype Queue = Queue(topic: seq<Job>, dead: seq<Job>, status: map<JobId, Status>, done: seq<Job>, lost: seq<Job>)

  const EMPTY := Queue([], [], map[], [], [])

  function Without(s: seq<Job>, i: nat): seq<Job>
    requires i < |s|
  {
    s[..i] + s[i + 1..]
  }

  // ---------------------------------------------------------------- operations, on values

  function Enqueued(q: Queue, job: Job, f: Faults): Queue {
    if f.status then q
    else if f.message then q.(status := q.status[job.id := Pending])
    else q.(status := q.status[job.id := Pending], topic := q.topic + [job])
  }

  /** A job below the retry limit goes back with one more attempt; any other is dead-lettered. */
  function AfterFailure(q: Queue, job: Job, max: nat, f: Faults): Queue {
    if job.attempt < max then
      var again := job.(attempt := job.attempt + 1);
      if f.status then q.(lost := q.lost + [job])
      else if f.message then q.(status := q.status[job.id := Retrying(again.attempt)], lost := q.lost + [job])
      else q.(status := q.status[job.id := Retrying(again.attempt)], topic := q.topic + [again])
    else if f.status then q.(lost := q.lost + [job])
    else if f.message then q.(status := q.status[job.id := DeadLettered(job.attempt)], lost := q.lost + [job])
    else q.(status := q.status[job.id := DeadLettered(job.attempt)], dead := q.dead + [job])
  }

  function AfterSuccess(q: Queue, job: Job, f: Faults): Queue {
    var r := q.(done := q.done + [job]);
    if f.status then r else r.(status := q.status[job.id := Completed])
  }

  function Delivered(q: Queue, i: nat, ok: bool, max: nat, f: Faults): Queue
    requires i < |q.topic|
  {
    var rest := q.(topic := Without(q.topic, i));
    if ok then AfterSuccess(rest, q.topic[i], f) else AfterFailure(rest, q.topic[i], max, f)
  }

  class CommandQueue {
    const enabled: bool
    var maxRetries: nat
    var topic: seq<Job>
    var dead: seq<Job>
    var status: map<JobId, Status>
    ghost var done: seq<Job>
    ghost var lost: seq<Job>

    constructor (enabled: bool)
      ensures this.enabled == enabled && maxRetries == 3 && State() == EMPTY
    {
      this.enabled, maxRetries := enabled, 3;
      topic, dead, status, done, lost := [], [], map[], [], [];
    }

    ghost function State(): Queue
      reads this
    {
      Queue(topic, dead, status, done, lost)
    }

    method SetMaxRetries(retries: int)
      modifies this
      ensures maxRetries == if retries < 0 then 0 else retries
      ensures State() == old(State())
    {
      maxRetries := if retries < 0 then 0 else retries;
    }

    /** A new job has a fresh id and no attempts behind it. */
    method EnqueueJob(id: JobId, command: int, f: Faults) returns (r: Result<Job, QueueError>)
      modifies this
      ensures maxRetries == old(maxRetries)
      ensures !enabled ==> r == Failure(Unavailable) && State() == old(State())
      ensures enabled ==> State() == Enqueued(old(State()), Job(id, command, 0), f)
      ensures enabled ==> (r.Success? <==> !f.status && !f.message)
      ensures r.Success? ==> r.value == Job(id, command, 0)
    {
      if !enabled { return Failure(Unavailable); }
      var job := Job(id, command, 0);
      if f.status { return Failure(StatusNotWritten); }
      status := status[id := Pending];
      if f.message { return Failure(MessageNotWritten); }
      topic := topic + [job];
      return Success(job);
    }

    method HandleJobFailure(job: Job, f: Faults) returns (error: Option<QueueError>)
      requires enabled
      modifies this
      ensures maxRetries == old(maxRetries)
      ensures State() == AfterFailure(old(State()), job, maxRetries, f)
      ensures error.None? <==> !f.status && !f.message
    {
      lost := if f.status || f.message then lost + [job] else lost;
      if job.attempt < maxRetries {
        var again := job.(attempt := job.attempt + 1);
        if f.status { return Some(StatusNotWritten); }
        status := status[job.id := Retrying(again.attempt)];
        if f.message { return Some(MessageNotWritten); }
        topic := topic + [again];
        return None;
      }
      if f.status { return Some(StatusNotWritten); }
      status := status[job.id := DeadLettered(job.attempt)];
      if f.message { return Some(MessageNotWritten); }
      dead := dead + [job];
      return None;
    }

    method CompleteJob(job: Job, f: Faults)
      modifies this
      ensures maxRetries == old(maxRetries)
      ensures State() == AfterSuccess(old(State()), job, f)
    {
      done := done + [job];
      if !f.status {
        status := status[job.id := Completed];
      }
    }

    /**
     One message is handed to a worker, whose booking or purchase succeeds or fails; the errors of the
     writes that follow are ignored.
     */
    method ProcessJob(i: nat, ok: bool, f: Faults)
      requires enabled && i < |topic|
      modifies this
      ensures maxRetries == old(maxRetries)
      ensures State() == Delivered(old(State()), i, ok, maxRetries, f)
    {
      var job := topic[i];
      topic := Without(topic, i);
      if ok {
        CompleteJob(job, f);
      } else {
        var _ := HandleJobFailure(job, f);
      }
    }
  }

  // ---------------------------------------------------------------- runs

  /** Partitions are consumed side by side, so any waiting message may be the next one delivered. */
  datatype Event = Enqueue(id: JobId, command: int, f: Faults) | Deliver(i: nat, ok: bool, f: Faults)

  function Apply(q: Queue, e: Event, max: nat): Queue {
    match e
    case Enqueue(id, command, f) => Enqueued(q, Job(id, command, 0), f)
    case Deliver(i, ok, f) => if i < |q.topic| then Delivered(q, i, ok, max, f) else q
  }

  function Run(es: seq<Event>, max: nat): Queue {
    if es == [] then EMPTY else Apply(Run(es[..|es| - 1], max), es[|es| - 1], max)
  }

  /** How often the job was handed to a worker. */
  function Handled(es: seq<Event>, max: nat, id: JobId): nat {
    if es == [] then 0
    else
      var front, e := es[..|es| - 1], es[|es| - 1];
      Handled(front, max, id) + if Hands(Run(front, max), e, id) then 1 else 0
  }

  /** How often the worker failed. */
  function Failures(es: seq<Event>, max: nat, id: JobId): nat {
    if es == [] then 0
    else
      var front, e := es[..|es| - 1], es[|es| - 1];
      Failures(front, max, id) + if Hands(Run(front, max), e, id) && !e.ok then 1 else 0
  }

  predicate Hands(q: Queue, e: Event, id: JobId) {
    e.Deliver? && e.i < |q.topic| && q.topic[e.i].id == id
  }

  /** How often the job was accepted. */
  function Accepted(es: seq<Event>, id: JobId): nat {
    if es == [] then 0
    else Accepted(es[..|es| - 1], id) + if Accepts(es[|es| - 1]) && es[|es| - 1].id == id then 1 else 0
  }

  predicate Accepts(e: Event) {
    e.Enqueue? && e.f == NO_FAULTS
  }

  /** Every job gets an id of its own. */
  predicate FreshIds(es: seq<Event>) {
    forall i, j :: 0 <= i < j < |es| && es[i].Enqueue? && es[j].Enqueue? ==> es[i].id != es[j].id
  }

  function Count(s: seq<Job>, id: JobId): nat {
    if s == [] then 0 else Count(s[..|s| - 1], id) + if s[|s| - 1].id == id then 1 else 0
  }

  // ---------------------------------------------------------------- counting

  lemma CountAppend(s: seq<Job>, job: Job, id: JobId)
    ensures Count(s + [job], id) == Count(s, id) + if job.id == id then 1 else 0
  {
    assert (s + [job])[..|s|] == s;
  }

  lemma {:induction false} CountWithout(s: seq<Job>, i: nat, id: JobId)
    requires i < |s|
    ensures Count(s, id) == Count(Without(s, i), id) + if s[i].id == id then 1 else 0
  {
    var front, last := s[..|s| - 1], s[|s| - 1];
    if i < |front| {
      CountWithout(front, i, id);
      assert Without(s, i) == Without(front, i) + [last];
      CountAppend(Without(front, i), last, id);
    } else {
      assert Without(s, i) == front;
    }
  }

  lemma {:induction false} CountPositive(s: seq<Job>, i: nat, id: JobId)
    requires i < |s| && s[i].id == id
    ensures Count(s, id) >= 1
  {
    if i < |s| - 1 {
      CountPositive(s[..|s| - 1], i, id);
    }
  }

  // ---------------------------------------------------------------- one job through a run

  /** How many times the job is in the topic, completed, dead-lettered or lost, all told. */
  function Places(q: Queue, id: JobId): nat {
    Count(q.topic, id) + Count(q.done, id) + Count(q.dead, id) + Count(q.lost, id)
  }

  /** Every waiting copy of the job has failed `attempt` times. */
  predicate Waits(q: Queue, id: JobId, attempt: nat) {
    forall i :: 0 <= i < |q.topic| && q.topic[i].id == id ==> q.topic[i].attempt == attempt
  }

  /** Where the job is tells how often it was handled, and how often it failed. */
  predicate Tallied(q: Queue, id: JobId, max: nat, accepted: nat, handled: nat, failures: nat) {
    && Places(q, id) == accepted <= 1
    && (accepted == 0 ==> handled == failures == 0)
    && (Count(q.topic, id) == 1 ==> handled == failures <= max && Waits(q, id, failures))
    && (Count(q.done, id) == 1 ==> handled == failures + 1 <= max + 1)
    && (Count(q.dead, id) == 1 ==> handled == failures == max + 1)
    && (Count(q.lost, id) == 1 ==> 1 <= handled == failures <= max + 1)
  }

  predicate Absent(s: seq<Job>, id: JobId) {
    forall k :: 0 <= k < |s| ==> s[k].id != id
  }

  lemma NoCopies(s: seq<Job>, id: JobId)
    requires Count(s, id) == 0
    ensures Absent(s, id)
  {
    forall k | 0 <= k < |s| ensures s[k].id != id {
      if s[k].id == id { CountPositive(s, k, id); }
    }
  }

  lemma EnqueueWaits(q: Queue, job: Job, f: Faults, id: JobId, a: nat)
    requires Waits(q, id, a) && (job.id == id ==> job.attempt == a)
    ensures Waits(Enqueued(q, job, f), id, a)
  {
  }

  lemma EnqueueOwn(q: Queue, job: Job, f: Faults, max: nat)
    requires Tallied(q, job.id, max, 0, 0, 0) && job.attempt == 0
    ensures Tallied(Enqueued(q, job, f), job.id, max, if f == NO_FAULTS then 1 else 0, 0, 0)
  {
    CountAppend(q.topic, job, job.id);
    NoCopies(q.topic, job.id);
    EnqueueWaits(q, job, f, job.id, 0);
  }

  lemma EnqueueOther(q: Queue, job: Job, f: Faults, id: JobId, max: nat, accepted: nat, handled: nat, failures: nat)
    requires Tallied(q, id, max, accepted, handled, failures) && job.id != id
    ensures Tallied(Enqueued(q, job, f), id, max, accepted, handled, failures)
  {
    CountAppend(q.topic, job, id);
    if Count(q.topic, id) == 1 {
      EnqueueWaits(q, job, f, id, failures);
    }
  }

  /** The state between taking `job` from the topic and recording what became of it. */
  predicate InHand(rest: Queue, job: Job, id: JobId, max: nat, accepted: nat, handled: nat, failures: nat) {
    if job.id == id then Places(rest, id) == 0 && accepted == 1 && handled == failures == job.attempt <= max
    else Tallied(rest, id, max, accepted, handled, failures)
  }

  lemma TakeOut(q: Queue, i: nat, id: JobId, max: nat, accepted: nat, handled: nat, failures: nat)
    requires i < |q.topic| && Tallied(q, id, max, accepted, handled, failures)
    ensures InHand(q.(topic := Without(q.topic, i)), q.topic[i], id, max, accepted, handled, failures)
  {
    CountWithout(q.topic, i, id);
    if q.topic[i].id == id {
      CountPositive(q.topic, i, id);
    }
  }

  lemma SuccessTallied(rest: Queue, job: Job, f: Faults, id: JobId, max: nat,
                       accepted: nat, handled: nat, failures: nat)
    requires InHand(rest, job, id, max, accepted, handled, failures)
    ensures Tallied(AfterSuccess(rest, job, f), id, max, accepted,
                    handled + (if job.id == id then 1 else 0), failures)
  {
    CountAppend(rest.done, job, id);
  }

  lemma FailureCounts(rest: Queue, job: Job, max: nat, f: Faults, id: JobId)
    ensures var r, hit := AfterFailure(rest, job, max, f), if job.id == id then 1 else 0;
            && Count(r.done, id) == Count(rest.done, id)
            && Count(r.topic, id) == Count(rest.topic, id) + (if f == NO_FAULTS && job.attempt < max then hit else 0)
            && Count(r.dead, id) == Count(rest.dead, id) + (if f == NO_FAULTS && job.attempt >= max then hit else 0)
            && Count(r.lost, id) == Count(rest.lost, id) + (if f == NO_FAULTS then 0 else hit)
  {
    CountAppend(rest.topic, job.(attempt := job.attempt + 1), id);
    CountAppend(rest.dead, job, id);
    CountAppend(rest.lost, job, id);
  }

  lemma FailureWaits(rest: Queue, job: Job, max: nat, f: Faults, id: JobId)
    ensures forall a: nat :: job.id != id && Waits(rest, id, a) ==> Waits(AfterFailure(rest, job, max, f), id, a)
    ensures job.id == id && Count(rest.topic, id) == 0 ==> Waits(AfterFailure(rest, job, max, f), id, job.attempt + 1)
  {
    if job.id == id && Count(rest.topic, id) == 0 {
      NoCopies(rest.topic, id);
    }
  }

  lemma FailureTallied(rest: Queue, job: Job, f: Faults, id: JobId, max: nat,
                       accepted: nat, handled: nat, failures: nat)
    requires InHand(rest, job, id, max, accepted, handled, failures)
    ensures var more := if job.id == id then 1 else 0;
            Tallied(AfterFailure(rest, job, max, f), id, max, accepted, handled + more, failures + more)
  {
    FailureCounts(rest, job, max, f, id);
    FailureWaits(rest, job, max, f, id);
  }

  lemma DeliverTallied(q: Queue, i: nat, ok: bool, f: Faults, id: JobId, max: nat,
                       accepted: nat, handled: nat, failures: nat)
    requires Tallied(q, id, max, accepted, handled, failures) && i < |q.topic|
    ensures var hit := q.topic[i].id == id;
            Tallied(Delivered(q, i, ok, max, f), id, max, accepted,
                    handled + (if hit then 1 else 0), failures + (if hit && !ok then 1 else 0))
  {
    var rest := q.(topic := Without(q.topic, i));
    TakeOut(q, i, id, max, accepted, handled, failures);
    if ok {
      SuccessTallied(rest, q.topic[i], f, id, max, accepted, handled, failures);
    } else {
      FailureTallied(rest, q.topic[i], f, id, max, accepted, handled, failures);
    }
  }

  lemma {:induction false} AcceptedOnce(es: seq<Event>, id: JobId)
    requires FreshIds(es)
    ensures Accepted(es, id) >= 1 ==> exists i :: 0 <= i < |es| && es[i].Enqueue? && es[i].id == id
    ensures Accepted(es, id) <= 1
  {
    if es != [] {
      var front := es[..|es| - 1];
      AcceptedOnce(front, id);
      if Accepted(front, id) >= 1 {
        var i :| 0 <= i < |front| && front[i].Enqueue? && front[i].id == id;
        assert es[i] == front[i];
      } else if Accepted(es, id) >= 1 {
        assert es[|es| - 1].id == id;
      }
    }
  }

  lemma NotYetAccepted(es: seq<Event>)
    requires FreshIds(es) && es != [] && es[|es| - 1].Enqueue?
    ensures Accepted(es[..|es| - 1], es[|es| - 1].id) == 0
  {
    var front, id := es[..|es| - 1], es[|es| - 1].id;
    AcceptedOnce(front, id);
    forall i | 0 <= i < |front| && front[i].Enqueue? ensures front[i].id != id {
      assert es[i] == front[i];
    }
  }

  lemma {:induction false} RunTallied(es: seq<Event>, max: nat, id: JobId)
    requires FreshIds(es)
    ensures Tallied(Run(es, max), id, max, Accepted(es, id), Handled(es, max, id), Failures(es, max, id))
  {
    if es != [] {
      var front, e := es[..|es| - 1], es[|es| - 1];
      RunTallied(front, max, id);
      var q, a, h, f := Run(front, max), Accepted(front, id), Handled(front, max, id), Failures(front, max, id);
      match e
      case Enqueue(other, command, faults) =>
        NotYetAccepted(es);
        if other == id {
          EnqueueOwn(q, Job(other, command, 0), faults, max);
        } else {
          EnqueueOther(q, Job(other, command, 0), faults, id, max, a, h, f);
        }
      case Deliver(i, ok, faults) =>
        if i < |q.topic| {
          DeliverTallied(q, i, ok, faults, id, max, a, h, f);
        }
    }
  }

  /** An accepted job is in exactly one place, and a job that was not is nowhere. */
  lemma ExactlyOnePlace(es: seq<Event>, max: nat, id: JobId)
    requires FreshIds(es)
    ensures Places(Run(es, max), id) == Accepted(es, id) <= 1
  {
    RunTallied(es, max, id);
  }

  /**
   No job is handed out more than `max + 1` times. It is dead-lettered exactly when it failed every
   time and was not lost, and completed exactly when it did not fail the last time.
   */
  lemma HandledAtMost(es: seq<Event>, max: nat, id: JobId)
    requires FreshIds(es)
    ensures Failures(es, max, id) <= Handled(es, max, id) <= max + 1
    ensures Count(Run(es, max).dead, id) == 1 <==> Failures(es, max, id) == max + 1 && Count(Run(es, max).lost, id) == 0
    ensures Count(Run(es, max).done, id) == 1 <==> Handled(es, max, id) > Failures(es, max, id)
  {
    RunTallied(es, max, id);
  }

  /** A waiting message carries the number of failures so far. */
  lemma AttemptIsFailures(es: seq<Event>, max: nat, i: nat)
    requires FreshIds(es) && i < |Run(es, max).topic|
    ensures var job := Run(es, max).topic[i];
            job.attempt == Failures(es, max, job.id) == Handled(es, max, job.id) <= max
  {
    var id := Run(es, max).topic[i].id;
    RunTallied(es, max, id);
    CountPositive(Run(es, max).topic, i, id);
  }

  /** The job asks for what it was enqueued with. */
  ghost predicate AsEnqueued(es: seq<Event>, job: Job) {
    exists f :: Enqueue(job.id, job.command, f) in es
  }

  ghost predicate AllAsEnqueued(es: seq<Event>, s: seq<Job>) {
    forall i :: 0 <= i < |s| ==> AsEnqueued(es, s[i])
  }

  lemma AsEnqueuedLater(front: seq<Event>, e: Event, s: seq<Job>)
    requires AllAsEnqueued(front, s)
    ensures AllAsEnqueued(front + [e], s)
  {
    forall i | 0 <= i < |s| ensures AsEnqueued(front + [e], s[i]) {
      var f :| Enqueue(s[i].id, s[i].command, f) in front;
      assert Enqueue(s[i].id, s[i].command, f) in front + [e];
    }
  }

  /** Retrying and dead-lettering never change what a job asks for. */
  lemma {:induction false} CommandsKept(es: seq<Event>, max: nat)
    ensures AllAsEnqueued(es, Run(es, max).topic) && AllAsEnqueued(es, Run(es, max).dead)
  {
    if es != [] {
      var front, e := es[..|es| - 1], es[|es| - 1];
      var q := Run(front, max);
      CommandsKept(front, max);
      assert es == front + [e];
      AsEnqueuedLater(front, e, q.topic);
      AsEnqueuedLater(front, e, q.dead);
      if e.Enqueue? {
        assert Enqueue(e.id, e.command, e.f) in es;
      } else if e.i < |q.topic| {
        var job := q.topic[e.i];
        assert AsEnqueued(es, job);
        assert AsEnqueued(es, job.(attempt := job.attempt + 1)) by {
          var f :| Enqueue(job.id, job.command, f) in es;
        }
      }
    }
  }

  // ---------------------------------------------------------------- what failed writes do

  /** How often the job's worker failed and the write of the retry or of the dead letter failed too. */
  function Drops(es: seq<Event>, max: nat, id: JobId): nat {
    if es == [] then 0
    else
      var front, e := es[..|es| - 1], es[|es| - 1];
      Drops(front, max, id) + if Hands(Run(front, max), e, id) && !e.ok && e.f != NO_FAULTS then 1 else 0
  }

  /** How often the job's worker succeeded and the completion was not recorded. */
  function Unrecorded(es: seq<Event>, max: nat, id: JobId): nat {
    if es == [] then 0
    else
      var front, e := es[..|es| - 1], es[|es| - 1];
      Unrecorded(front, max, id) + if Hands(Run(front, max), e, id) && e.ok && e.f.status then 1 else 0
  }

  /** A job is lost by the failed writes after its own failed deliveries, and by nothing else. */
  lemma {:induction false} LostExactly(es: seq<Event>, max: nat, id: JobId)
    ensures Count(Run(es, max).lost, id) == Drops(es, max, id)
  {
    if es != [] {
      var front, e := es[..|es| - 1], es[|es| - 1];
      LostExactly(front, max, id);
      var q := Run(front, max);
      if e.Deliver? && e.i < |q.topic| && !e.ok {
        FailureCounts(q.(topic := Without(q.topic, e.i)), q.topic[e.i], max, e.f, id);
      }
    }
  }

  function WaitingStatus(failures: nat): Status {
    if failures == 0 then Pending else Retrying(failures)
  }

  /** What the status of a job says, by where the job is and whether its completion was recorded. */
  predicate StatusTells(q: Queue, id: JobId, failures: nat, unrecorded: nat) {
    && (Count(q.topic, id) >= 1 ==> id in q.status && q.status[id] == WaitingStatus(failures) && unrecorded == 0)
    && (Count(q.done, id) >= 1 ==>
          id in q.status && q.status[id] == if unrecorded == 0 then Completed else WaitingStatus(failures))
    && (Count(q.dead, id) >= 1 ==> id in q.status && q.status[id].DeadLettered? && unrecorded == 0)
    && (Places(q, id) == 0 ==> unrecorded == 0)
  }

  lemma FailureStatus(rest: Queue, job: Job, max: nat, f: Faults)
    requires Count(rest.topic, job.id) == Count(rest.done, job.id) == Count(rest.dead, job.id) == 0
    requires Count(rest.lost, job.id) == 0
    ensures StatusTells(AfterFailure(rest, job, max, f), job.id, job.attempt + 1, 0)
  {
    FailureCounts(rest, job, max, f, job.id);
    if f == NO_FAULTS {
      var r := AfterFailure(rest, job, max, f);
      assert r.status[job.id] == if job.attempt < max then Retrying(job.attempt + 1) else DeadLettered(job.attempt);
    }
  }

  lemma SuccessStatus(rest: Queue, job: Job, f: Faults, failures: nat)
    requires Places(rest, job.id) == 0 && job.id in rest.status && rest.status[job.id] == WaitingStatus(failures)
    ensures StatusTells(AfterSuccess(rest, job, f), job.id, failures, if f.status then 1 else 0)
  {
    CountAppend(rest.done, job, job.id);
  }

  /** Steps that leave the job where it is, and its status, change nothing. */
  lemma SameFate(q: Queue, r: Queue, id: JobId, failures: nat, unrecorded: nat)
    requires Count(r.topic, id) == Count(q.topic, id) && Count(r.done, id) == Count(q.done, id)
    requires Count(r.dead, id) == Count(q.dead, id) && Count(r.lost, id) == Count(q.lost, id)
    requires if id in q.status then id in r.status && r.status[id] == q.status[id] else id !in r.status
    requires StatusTells(q, id, failures, unrecorded)
    ensures StatusTells(r, id, failures, unrecorded)
  {
  }

  lemma OtherFailure(rest: Queue, job: Job, id: JobId, max: nat, f: Faults, failures: nat, unrecorded: nat)
    requires job.id != id && StatusTells(rest, id, failures, unrecorded)
    ensures StatusTells(AfterFailure(rest, job, max, f), id, failures, unrecorded)
  {
    FailureCounts(rest, job, max, f, id);
    SameFate(rest, AfterFailure(rest, job, max, f), id, failures, unrecorded);
  }

  lemma OtherSuccess(rest: Queue, job: Job, id: JobId, f: Faults, failures: nat, unrecorded: nat)
    requires job.id != id && StatusTells(rest, id, failures, unrecorded)
    ensures StatusTells(AfterSuccess(rest, job, f), id, failures, unrecorded)
  {
    CountAppend(rest.done, job, id);
    SameFate(rest, AfterSuccess(rest, job, f), id, failures, unrecorded);
  }

  lemma DeliverOther(q: Queue, i: nat, ok: bool, id: JobId, max: nat, f: Faults, failures: nat, unrecorded: nat)
    requires i < |q.topic| && q.topic[i].id != id && StatusTells(q, id, failures, unrecorded)
    ensures StatusTells(Delivered(q, i, ok, max, f), id, failures, unrecorded)
  {
    var rest, job := q.(topic := Without(q.topic, i)), q.topic[i];
    CountWithout(q.topic, i, id);
    assert StatusTells(rest, id, failures, unrecorded);
    if ok {
      OtherSuccess(rest, job, id, f, failures, unrecorded);
    } else {
      OtherFailure(rest, job, id, max, f, failures, unrecorded);
    }
  }

  lemma DeliverOwn(q: Queue, i: nat, ok: bool, max: nat, f: Faults, accepted: nat, handled: nat, failures: nat)
    requires i < |q.topic| && Tallied(q, q.topic[i].id, max, accepted, handled, failures)
    requires StatusTells(q, q.topic[i].id, failures, 0)
    ensures StatusTells(Delivered(q, i, ok, max, f), q.topic[i].id,
                        failures + (if ok then 0 else 1), if ok && f.status then 1 else 0)
  {
    var rest, job := q.(topic := Without(q.topic, i)), q.topic[i];
    TakeOut(q, i, job.id, max, accepted, handled, failures);
    CountPositive(q.topic, i, job.id);
    if ok {
      SuccessStatus(rest, job, f, failures);
    } else {
      FailureStatus(rest, job, max, f);
    }
  }

  lemma EnqueueOwnStatus(q: Queue, job: Job, f: Faults)
    requires Places(q, job.id) == 0
    ensures StatusTells(Enqueued(q, job, f), job.id, 0, 0)
  {
    CountAppend(q.topic, job, job.id);
  }

  lemma EnqueueOtherStatus(q: Queue, job: Job, f: Faults, id: JobId, failures: nat, unrecorded: nat)
    requires StatusTells(q, id, failures, unrecorded) && job.id != id
    ensures StatusTells(Enqueued(q, job, f), id, failures, unrecorded)
  {
    CountAppend(q.topic, job, id);
    SameFate(q, Enqueued(q, job, f), id, failures, unrecorded);
  }

  /** One delivery, of this job or of another. */
  lemma StatusDelivery(front: seq<Event>, e: Event, max: nat, id: JobId)
    requires FreshIds(front) && e.Deliver? && e.i < |Run(front, max).topic|
    requires StatusTells(Run(front, max), id, Failures(front, max, id), Unrecorded(front, max, id))
    ensures var q, hit := Run(front, max), Hands(Run(front, max), e, id);
            StatusTells(Delivered(q, e.i, e.ok, max, e.f), id,
                        Failures(front, max, id) + (if hit && !e.ok then 1 else 0),
                        Unrecorded(front, max, id) + (if hit && e.ok && e.f.status then 1 else 0))
  {
    var q := Run(front, max);
    if q.topic[e.i].id == id {
      RunTallied(front, max, id);
      CountPositive(q.topic, e.i, id);
      DeliverOwn(q, e.i, e.ok, max, e.f, Accepted(front, id), Handled(front, max, id), Failures(front, max, id));
    } else {
      DeliverOther(q, e.i, e.ok, id, max, e.f, Failures(front, max, id), Unrecorded(front, max, id));
    }
  }

  lemma StatusEnqueue(front: seq<Event>, e: Event, max: nat, id: JobId)
    requires FreshIds(front + [e]) && e.Enqueue?
    requires StatusTells(Run(front, max), id, Failures(front, max, id), Unrecorded(front, max, id))
    ensures StatusTells(Enqueued(Run(front, max), Job(e.id, e.command, 0), e.f), id,
                        Failures(front, max, id), Unrecorded(front, max, id))
  {
    assert (front + [e])[..|front|] == front;
    NotYetAccepted(front + [e]);
    FreshFront(front, e);
    RunTallied(front, max, id);
    var q, job := Run(front, max), Job(e.id, e.command, 0);
    if e.id == id {
      EnqueueOwnStatus(q, job, e.f);
    } else {
      EnqueueOtherStatus(q, job, e.f, id, Failures(front, max, id), Unrecorded(front, max, id));
    }
  }

  lemma FreshFront(front: seq<Event>, e: Event)
    requires FreshIds(front + [e])
    ensures FreshIds(front)
  {
    assert forall i :: 0 <= i < |front| ==> (front + [e])[i] == front[i];
  }

  lemma {:induction false} RunStatus(es: seq<Event>, max: nat, id: JobId)
    requires FreshIds(es)
    ensures StatusTells(Run(es, max), id, Failures(es, max, id), Unrecorded(es, max, id))
  {
    if es != [] {
      var front, e := es[..|es| - 1], es[|es| - 1];
      WithLast(es);
      RunStatus(front, max, id);
      if e.Enqueue? {
        StatusEnqueue(front, e, max, id);
      } else if e.i < |Run(front, max).topic| {
        StatusDelivery(front, e, max, id);
      }
    }
  }

  /** Every dead-lettered job has the status that says so, with the retries it had. */
  predicate DeadSays(q: Queue, max: nat) {
    forall k :: 0 <= k < |q.dead| ==> q.dead[k].id in q.status && q.status[q.dead[k].id] == DeadLettered(max)
  }

  lemma DeadDelivery(q: Queue, i: nat, ok: bool, max: nat, f: Faults)
    requires DeadSays(q, max) && i < |q.topic| && q.topic[i].attempt <= max && Absent(q.dead, q.topic[i].id)
    ensures DeadSays(Delivered(q, i, ok, max, f), max)
  {
  }

  lemma DeadEnqueue(q: Queue, job: Job, max: nat, f: Faults)
    requires DeadSays(q, max) && Absent(q.dead, job.id)
    ensures DeadSays(Enqueued(q, job, f), max)
  {
  }

  lemma WaitingNotDead(es: seq<Event>, max: nat, i: nat)
    requires FreshIds(es) && i < |Run(es, max).topic|
    ensures var q := Run(es, max); q.topic[i].attempt <= max && Absent(q.dead, q.topic[i].id)
  {
    var q, id := Run(es, max), Run(es, max).topic[i].id;
    RunTallied(es, max, id);
    CountPositive(q.topic, i, id);
    NoCopies(q.dead, id);
  }

  lemma {:induction false} RunDeadSays(es: seq<Event>, max: nat)
    requires FreshIds(es)
    ensures DeadSays(Run(es, max), max)
  {
    if es != [] {
      var front, e := es[..|es| - 1], es[|es| - 1];
      WithLast(es);
      FreshFront(front, e);
      RunDeadSays(front, max);
      var q := Run(front, max);
      if e.Enqueue? {
        NotYetAccepted(es);
        RunTallied(front, max, e.id);
        NoCopies(q.dead, e.id);
        DeadEnqueue(q, Job(e.id, e.command, 0), max, e.f);
      } else if e.i < |q.topic| {
        WaitingNotDead(front, max, e.i);
        DeadDelivery(q, e.i, e.ok, max, e.f);
      }
    }
  }

  lemma {:induction false} Listed(s: seq<Job>, id: JobId) returns (k: nat)
    requires Count(s, id) >= 1
    ensures k < |s| && s[k].id == id
  {
    if s[|s| - 1].id == id {
      k := |s| - 1;
    } else {
      k := Listed(s[..|s| - 1], id);
    }
  }

  /**
   An accepted job none of whose failed deliveries met a failed write waits, is completed or is
   dead-lettered. Its status says which, except that a completion that was not recorded still reads as
   waiting. Other jobs' writes, and this job's other writes, may fail at will.
   */
  lemma {:induction false} NothingLost(es: seq<Event>, max: nat, id: JobId)
    requires FreshIds(es) && Accepted(es, id) == 1 && Drops(es, max, id) == 0
    ensures var q := Run(es, max);
            && Count(q.topic, id) + Count(q.done, id) + Count(q.dead, id) == 1 && id in q.status
            && (q.status[id] == WaitingStatus(Failures(es, max, id)) <==>
                  Count(q.topic, id) == 1 || Unrecorded(es, max, id) >= 1)
            && (q.status[id].Completed? <==> Count(q.done, id) == 1 && Unrecorded(es, max, id) == 0)
            && (q.status[id] == DeadLettered(max) <==> Count(q.dead, id) == 1)
  {
    RunTallied(es, max, id);
    RunStatus(es, max, id);
    LostExactly(es, max, id);
    RunDeadSays(es, max);
    if Count(Run(es, max).dead, id) == 1 {
      var k := Listed(Run(es, max).dead, id);
    }
  }

  /** And one such delivery is enough: the job is then in no topic and not completed, in every later run. */
  lemma {:induction false} LostForGood(es: seq<Event>, max: nat, id: JobId)
    requires FreshIds(es)
    ensures Drops(es, max, id) >= 1 <==> Count(Run(es, max).lost, id) == 1
    ensures Drops(es, max, id) >= 1 ==>
              var q := Run(es, max); Count(q.topic, id) == Count(q.done, id) == Count(q.dead, id) == 0
  {
    RunTallied(es, max, id);
    LostExactly(es, max, id);
  }

  /**
   Whatever the run and whatever waiting job with attempts left: if its worker fails and the message of
   the retry is not written, the job is lost, while its status promises the retry.
   */
  lemma {:induction false} FailedRetryLosesJob(es: seq<Event>, max: nat, i: nat)
    requires FreshIds(es) && i < |Run(es, max).topic| && Run(es, max).topic[i].attempt < max
    ensures var job := Run(es, max).topic[i];
            var q := Run(es + [Deliver(i, false, Faults(false, true))], max);
            && Count(q.lost, job.id) == 1
            && Count(q.topic, job.id) == Count(q.done, job.id) == Count(q.dead, job.id) == 0
            && job.id in q.status && q.status[job.id] == Retrying(job.attempt + 1)
  {
    var e := Deliver(i, false, Faults(false, true));
    var q, job := Run(es, max), Run(es, max).topic[i];
    assert Run(es + [e], max) == Delivered(q, i, false, max, e.f) by {
      assert (es + [e])[..|es|] == es;
    }
    RunTallied(es, max, job.id);
    RetryUnwritten(q, i, max, Accepted(es, job.id), Handled(es, max, job.id), Failures(es, max, job.id));
  }

  lemma RetryUnwritten(q: Queue, i: nat, max: nat, accepted: nat, handled: nat, failures: nat)
    requires i < |q.topic| && q.topic[i].attempt < max
    requires Tallied(q, q.topic[i].id, max, accepted, handled, failures)
    ensures var job := q.topic[i];
            var r := Delivered(q, i, false, max, Faults(false, true));
            && Count(r.lost, job.id) == 1
            && Count(r.topic, job.id) == Count(r.done, job.id) == Count(r.dead, job.id) == 0
            && job.id in r.status && r.status[job.id] == Retrying(job.attempt + 1)
  {
    var rest, job := q.(topic := Without(q.topic, i)), q.topic[i];
    TakeOut(q, i, job.id, max, accepted, handled, failures);
    FailureCounts(rest, job, max, Faults(false, true), job.id);
  }

  /** A job that is nowhere although its status says it waits. */
  predicate Unsent(q: Queue, id: JobId) {
    && Absent(q.topic, id) && Absent(q.done, id) && Absent(q.dead, id) && Absent(q.lost, id)
    && id in q.status && q.status[id] == Pending
  }

  lemma UnsentThrough(q: Queue, e: Event, max: nat, id: JobId)
    requires Unsent(q, id) && !(e.Enqueue? && e.id == id)
    ensures Unsent(Apply(q, e, max), id)
  {
  }

  lemma NotYetAnywhere(front: seq<Event>, max: nat, id: JobId)
    requires FreshIds(front) && Accepted(front, id) == 0
    ensures var q := Run(front, max);
            Absent(q.topic, id) && Absent(q.done, id) && Absent(q.dead, id) && Absent(q.lost, id)
  {
    var q := Run(front, max);
    RunTallied(front, max, id);
    NoCopies(q.topic, id);
    NoCopies(q.done, id);
    NoCopies(q.dead, id);
    NoCopies(q.lost, id);
  }

  /**
   A job whose enqueueing recorded its status and then could not write its message is refused to the
   caller, is in no topic, and its status says `pending` for good.
   */
  lemma {:induction false} RefusedStaysPending(es: seq<Event>, max: nat, i: nat)
    requires FreshIds(es) && i < |es| && es[i].Enqueue? && es[i].f == Faults(false, true)
    ensures Unsent(Run(es, max), es[i].id)
  {
    var front, e := es[..|es| - 1], es[|es| - 1];
    WithLast(es);
    FreshFront(front, e);
    if i < |front| {
      RefusedStaysPending(front, max, i);
      UnsentThrough(Run(front, max), e, max, es[i].id);
    } else {
      NotYetAccepted(es);
      NotYetAnywhere(front, max, e.id);
    }
  }

  // ---------------------------------------------------------------- termination

  /** How many more times the waiting jobs can be handed out. */
  function Remaining(topic: seq<Job>, max: nat): nat {
    if topic == [] then 0
    else
      var job := topic[|topic| - 1];
      Remaining(topic[..|topic| - 1], max) + if job.attempt <= max then max + 1 - job.attempt else 1
  }

  lemma RemainingAppend(s: seq<Job>, job: Job, max: nat)
    ensures Remaining(s + [job], max) == Remaining(s, max) + if job.attempt <= max then max + 1 - job.attempt else 1
  {
    assert (s + [job])[..|s|] == s;
  }

  lemma {:induction false} RemainingWithout(s: seq<Job>, i: nat, max: nat)
    requires i < |s|
    ensures Remaining(s, max)
         == Remaining(Without(s, i), max) + if s[i].attempt <= max then max + 1 - s[i].attempt else 1
  {
    var front, last := s[..|s| - 1], s[|s| - 1];
    if i < |front| {
      RemainingWithout(front, i, max);
      assert Without(s, i) == Without(front, i) + [last];
      RemainingAppend(Without(front, i), last, max);
    } else {
      assert Without(s, i) == front;
    }
  }

  /** Every delivery uses up one of them. */
  lemma DeliveryShrinks(q: Queue, i: nat, ok: bool, max: nat, f: Faults)
    requires i < |q.topic|
    ensures Remaining(Delivered(q, i, ok, max, f).topic, max) < Remaining(q.topic, max)
  {
    var job := q.topic[i];
    RemainingWithout(q.topic, i, max);
    RemainingAppend(Without(q.topic, i), job.(attempt := job.attempt + 1), max);
  }

  function Enqueues(es: seq<Event>): nat {
    if es == [] then 0 else Enqueues(es[..|es| - 1]) + if es[|es| - 1].Enqueue? then 1 else 0
  }

  function Deliveries(es: seq<Event>, max: nat): nat {
    if es == [] then 0
    else
      var front, e := es[..|es| - 1], es[|es| - 1];
      Deliveries(front, max) + if e.Deliver? && e.i < |Run(front, max).topic| then 1 else 0
  }

  /** `max + 1` deliveries for each enqueued job. */
  function Budget(es: seq<Event>, max: nat): nat {
    if es == [] then 0 else Budget(es[..|es| - 1], max) + if es[|es| - 1].Enqueue? then max + 1 else 0
  }

  lemma {:induction false} BudgetIsProduct(es: seq<Event>, max: nat)
    ensures Budget(es, max) == (max + 1) * Enqueues(es)
  {
    if es != [] {
      var front := es[..|es| - 1];
      BudgetIsProduct(front, max);
      assert (max + 1) * (Enqueues(front) + 1) == (max + 1) * Enqueues(front) + (max + 1);
    }
  }

  lemma {:induction false} DeliveriesInBudget(es: seq<Event>, max: nat)
    ensures Deliveries(es, max) + Remaining(Run(es, max).topic, max) <= Budget(es, max)
  {
    if es != [] {
      var front, e := es[..|es| - 1], es[|es| - 1];
      DeliveriesInBudget(front, max);
      var q := Run(front, max);
      match e
      case Enqueue(id, command, f) =>
        RemainingAppend(q.topic, Job(id, command, 0), max);
      case Deliver(i, ok, f) =>
        if i < |q.topic| {
          DeliveryShrinks(q, i, ok, max, f);
        }
    }
  }

  /** In any run there are at most `max + 1` deliveries for every enqueued job, whoever fails and whatever is lost. */
  lemma DeliveriesBounded(es: seq<Event>, max: nat)
    ensures Deliveries(es, max) <= (max + 1) * Enqueues(es)
  {
    DeliveriesInBudget(es, max);
    BudgetIsProduct(es, max);
  }
}
