/**
 One BulkReserve call: chunks of the request reserve their seats concurrently, every outcome goes
 through one channel, and if any reservation failed the successful ones are cancelled. Other actors
 commit transactions at any moment.
 */
module BulkReserve {
  import opened Prelude
  import opened Ledger
  import opened LedgerRuns
  import BookingService

  const MAX_BULK_SEATS := 500
  const BULK_CHUNK_SIZE := 50

  /** A goroutine's share of the request: the seats `next..end` are still to be tried. */
  datatype Chunk = Chunk(next: nat, end: nat, stopped: bool)

  datatype Outcome = Booked(number: string, id: BookingId) | Refused(number: string, error: Error)

  datatype Response = NoSeatsRequested | TooManySeats | AllReserved(ids: seq<BookingId>) | BulkFailed(error: Error)

  datatype Phase = Reserving | Undoing(done: nat) | Returned(response: Response)

  /**
   `outcomes` is everything sent through the channel so far, in order; `leftover` are the bookings whose
   cancellation the database refused, which is ignored.
   */
  datatype State = State(
    db: Db, user: UserId, event: EventId, seats: seq<string>,
    chunks: seq<Chunk>, outcomes: seq<Outcome>, leftover: set<BookingId>, phase: Phase)

  datatype Action =
    | ReserveNext(chunk: nat, clock: Clock, until: Time, id: BookingId)
    | LockRefused(chunk: nat, error: Error) // the seat row is locked by somebody, or the database failed
    | Collect                               // every goroutine has returned and the channel is drained
    | Undo(clock: Clock)
    | UndoFails                             // the database failed
    | Others(op: Op)

  /** Where the last chunk of a request of `n` seats starts. */
  function LastChunkStart(n: nat): (start: nat)
    requires n > 0
    ensures start < n <= start + BULK_CHUNK_SIZE
  {
    (n - 1) / BULK_CHUNK_SIZE * BULK_CHUNK_SIZE
  }

  /** The chunks `ChunkSeats` cuts a request of `n` seats into. */
  function Chunks(n: nat): seq<Chunk> {
    if n == 0 then []
    else
      var start := LastChunkStart(n);
      Chunks(start) + [Chunk(start, n, false)]
  }

  lemma {:induction false} FlattenSize<T>(chunks: seq<seq<T>>, size: nat)
    requires forall k :: 0 <= k < |chunks| ==> |chunks[k]| == size
    ensures |BookingService.Flatten(chunks)| == |chunks| * size
  {
    if chunks != [] {
      FlattenSize(chunks[..|chunks| - 1], size);
      assert (|chunks| - 1) * size + size == |chunks| * size;
    }
  }

  /** Any cut of the request into chunks, such as the one the service makes, is this one. */
  lemma {:induction false} ChunksMatch(seats: seq<string>, cut: seq<seq<string>>)
    requires BookingService.Cut(cut, seats, 50)
    ensures |cut| == |Chunks(|seats|)|
    ensures forall k :: 0 <= k < |cut| ==>
              var c := Chunks(|seats|)[k]; c.next < c.end <= |seats| && cut[k] == seats[c.next..c.end]
  {
    if cut != [] {
      var front, last := cut[..|cut| - 1], cut[|cut| - 1];
      var start := |BookingService.Flatten(front)|;
      FlattenSize(front, BULK_CHUNK_SIZE);
      assert seats == BookingService.Flatten(front) + last;
      assert seats[..start] == BookingService.Flatten(front) && seats[start..] == last;
      assert LastChunkStart(|seats|) == start;
      ChunksMatch(seats[..start], front);
      forall k | 0 <= k < |cut|
        ensures var c := Chunks(|seats|)[k]; c.next < c.end <= |seats| && cut[k] == seats[c.next..c.end]
      {
        if k < |front| {
          var c := Chunks(start)[k];
          assert cut[k] == seats[..start][c.next..c.end] == seats[c.next..c.end];
        }
      }
    }
  }

  function Begin(db: Db, user: UserId, event: EventId, seats: seq<string>): State {
    State(db, user, event, seats, Chunks(|seats|), [], {},
          if seats == [] then Returned(NoSeatsRequested)
          else if |seats| > MAX_BULK_SEATS then Returned(TooManySeats)
          else Reserving)
  }

  predicate Trying(s: State, j: nat) {
    s.phase.Reserving? && j < |s.chunks| && !s.chunks[j].stopped && s.chunks[j].next < s.chunks[j].end <= |s.seats|
  }

  predicate AllReturned(s: State) {
    forall c <- s.chunks :: c.stopped || c.next >= c.end
  }

  function BookedIds(outcomes: seq<Outcome>): seq<BookingId> {
    if outcomes == [] then []
    else
      var front, last := BookedIds(outcomes[..|outcomes| - 1]), outcomes[|outcomes| - 1];
      if last.Booked? then front + [last.id] else front
  }

  /** The first error in channel order. */
  function FirstError(outcomes: seq<Outcome>): Option<Error> {
    if outcomes == [] then None
    else
      var last := outcomes[|outcomes| - 1];
      match FirstError(outcomes[..|outcomes| - 1])
      case Some(e) => Some(e)
      case None => if last.Refused? then Some(last.error) else None
  }

  function Tried(s: State, j: nat, outcome: Outcome): State
    requires j < |s.chunks|
  {
    var c := s.chunks[j];
    s.(chunks := s.chunks[j := c.(next := c.next + 1, stopped := outcome.Refused?)],
       outcomes := s.outcomes + [outcome])
  }

  function OutcomeOf(number: string, id: BookingId, reply: Reply): Outcome {
    if reply.Failed? then Refused(number, reply.error) else Booked(number, id)
  }

  function Next(s: State, a: Action): State {
    match a
    case ReserveNext(j, c, until, id) =>
      if !Trying(s, j) then s
      else
        var number := s.seats[s.chunks[j].next];
        var r := ReserveTx(s.db, c, s.user, s.event, number, until, id);
        Tried(s, j, OutcomeOf(number, id, r.reply)).(db := r.db)
    case LockRefused(j, e) =>
      if !Trying(s, j) then s else Tried(s, j, Refused(s.seats[s.chunks[j].next], e))
    case Collect =>
      if !s.phase.Reserving? || !AllReturned(s) then s
      else if FirstError(s.outcomes).Some? then s.(phase := Undoing(0))
      else s.(phase := Returned(AllReserved(BookedIds(s.outcomes))))
    case Undo(c) =>
      if !s.phase.Undoing? then s
      else if s.phase.done < |BookedIds(s.outcomes)| then
        var id := BookedIds(s.outcomes)[s.phase.done];
        s.(db := ReleaseTx(s.db, c, id, Cancelled, false).db, phase := Undoing(s.phase.done + 1))
      else
        (match FirstError(s.outcomes)
         case Some(e) => s.(phase := Returned(BulkFailed(e)))
         case None => s)
    case UndoFails =>
      if !s.phase.Undoing? || s.phase.done >= |BookedIds(s.outcomes)| then s
      else s.(leftover := s.leftover + {BookedIds(s.outcomes)[s.phase.done]}, phase := Undoing(s.phase.done + 1))
    case Others(op) => s.(db := Apply(s.db, op).db)
  }

  function RunFrom(s: State, actions: seq<Action>): State {
    if actions == [] then s else Next(RunFrom(s, actions[..|actions| - 1]), actions[|actions| - 1])
  }

  // ---------------------------------------------------------------- every seat number is accounted for

  /** How often `x` occurs among `xs[lo..hi]`. */
  function Count(xs: seq<string>, lo: nat, hi: nat, x: string): nat
    requires hi <= |xs|
  {
    if hi <= lo then 0 else Count(xs, lo, hi - 1, x) + if xs[hi - 1] == x then 1 else 0
  }

  lemma {:induction false} CountSplit(xs: seq<string>, lo: nat, mid: nat, hi: nat, x: string)
    requires lo <= mid <= hi <= |xs|
    ensures Count(xs, lo, hi, x) == Count(xs, lo, mid, x) + Count(xs, mid, hi, x)
  {
    if mid < hi {
      CountSplit(xs, lo, mid, hi - 1, x);
    }
  }

  lemma {:induction false} CountIsMultiplicity(xs: seq<string>, n: nat, x: string)
    requires n <= |xs|
    ensures multiset(xs[..n])[x] == Count(xs, 0, n, x)
  {
    if n > 0 {
      CountIsMultiplicity(xs, n - 1, x);
      assert xs[..n] == xs[..n - 1] + [xs[n - 1]];
    }
  }

  function Numbers(outcomes: seq<Outcome>): seq<string> {
    if outcomes == [] then [] else Numbers(outcomes[..|outcomes| - 1]) + [outcomes[|outcomes| - 1].number]
  }

  /** How often a seat number has an outcome. */
  function OutcomesFor(outcomes: seq<Outcome>, x: string): nat {
    if outcomes == [] then 0
    else OutcomesFor(outcomes[..|outcomes| - 1], x) + if outcomes[|outcomes| - 1].number == x then 1 else 0
  }

  lemma {:induction false} OutcomesForIsMultiplicity(outcomes: seq<Outcome>, x: string)
    ensures multiset(Numbers(outcomes))[x] == OutcomesFor(outcomes, x)
  {
    if outcomes != [] {
      OutcomesForIsMultiplicity(outcomes[..|outcomes| - 1], x);
    }
  }

  function Sum(chunks: seq<Chunk>, weight: Chunk -> nat): nat {
    if chunks == [] then 0 else Sum(chunks[..|chunks| - 1], weight) + weight(chunks[|chunks| - 1])
  }

  lemma SumSnoc(chunks: seq<Chunk>, c: Chunk, weight: Chunk -> nat)
    ensures Sum(chunks + [c], weight) == Sum(chunks, weight) + weight(c)
  {
    assert (chunks + [c])[..|chunks|] == chunks;
  }

  lemma {:induction false} SumUpdate(chunks: seq<Chunk>, j: nat, c: Chunk, weight: Chunk -> nat)
    requires j < |chunks|
    ensures Sum(chunks[j := c], weight) == Sum(chunks, weight) - weight(chunks[j]) + weight(c)
  {
    var front, last := chunks[..|chunks| - 1], chunks[|chunks| - 1];
    if j == |front| {
      assert chunks[j := c] == front + [c];
      SumSnoc(front, c, weight);
    } else {
      SumUpdate(front, j, c, weight);
      assert chunks[j := c] == front[j := c] + [last];
      SumSnoc(front[j := c], last, weight);
    }
  }

  /** How often a seat number is among those a chunk has not tried. */
  function UntriedIn(seats: seq<string>, x: string): Chunk -> nat {
    (c: Chunk) => if c.end <= |seats| then Count(seats, c.next, c.end, x) else 0
  }

  /** Every requested seat number has either an outcome or is untried, as often as it was requested. */
  ghost predicate AccountedFor(s: State, x: string) {
    OutcomesFor(s.outcomes, x) + Sum(s.chunks, UntriedIn(s.seats, x)) == Count(s.seats, 0, |s.seats|, x)
  }

  lemma {:induction false} ChunksCover(seats: seq<string>, n: nat, x: string)
    requires n <= |seats|
    ensures Sum(Chunks(n), UntriedIn(seats, x)) == Count(seats, 0, n, x)
  {
    if n > 0 {
      var start := LastChunkStart(n);
      ChunksCover(seats, start, x);
      SumSnoc(Chunks(start), Chunk(start, n, false), UntriedIn(seats, x));
      CountSplit(seats, 0, start, n, x);
    }
  }

  lemma TriedAccounted(s: State, j: nat, o: Outcome, x: string)
    requires AccountedFor(s, x) && Trying(s, j) && o.number == s.seats[s.chunks[j].next]
    ensures AccountedFor(Tried(s, j, o), x)
  {
    var c := s.chunks[j];
    SumUpdate(s.chunks, j, c.(next := c.next + 1, stopped := o.Refused?), UntriedIn(s.seats, x));
    CountSplit(s.seats, c.next, c.next + 1, c.end, x);
    assert Count(s.seats, c.next, c.next + 1, x) == if o.number == x then 1 else 0;
    assert (s.outcomes + [o])[..|s.outcomes|] == s.outcomes;
  }

  lemma {:induction false} AllTried(seats: seq<string>, chunks: seq<Chunk>, x: string)
    requires forall c <- chunks :: c.next >= c.end
    ensures Sum(chunks, UntriedIn(seats, x)) == 0
  {
    if chunks != [] {
      AllTried(seats, chunks[..|chunks| - 1], x);
    }
  }

  lemma NextAccounted(s: State, a: Action, x: string)
    requires AccountedFor(s, x)
    ensures AccountedFor(Next(s, a), x)
  {
    match a
    case ReserveNext(j, c, until, id) =>
      if Trying(s, j) {
        var number := s.seats[s.chunks[j].next];
        var r := ReserveTx(s.db, c, s.user, s.event, number, until, id);
        TriedAccounted(s, j, OutcomeOf(number, id, r.reply), x);
      }
    case LockRefused(j, e) => if Trying(s, j) { TriedAccounted(s, j, Refused(s.seats[s.chunks[j].next], e), x); }
    case _ =>
  }

  lemma {:induction false} RunAccounted(s: State, actions: seq<Action>, x: string)
    requires AccountedFor(s, x)
    ensures AccountedFor(RunFrom(s, actions), x)
  {
    if actions != [] {
      RunAccounted(s, actions[..|actions| - 1], x);
      NextAccounted(RunFrom(s, actions[..|actions| - 1]), actions[|actions| - 1], x);
    }
  }

  // ---------------------------------------------------------------- every booking it made is its own

  ghost predicate Distinct<T>(xs: seq<T>) {
    forall i, j :: 0 <= i < j < |xs| ==> xs[i] != xs[j]
  }

  /** The booking an outcome reports exists, for this user, event and seat. */
  ghost predicate Mine(s: State, o: Outcome) {
    o.Booked? ==>
      && o.id in s.db.bookings
      && s.db.bookings[o.id].user == s.user && s.db.bookings[o.id].event == s.event
      && s.db.bookings[o.id].seat == SeatId(s.event, o.number)
  }

  ghost predicate BookingsInv(s: State) {
    && (forall o <- s.outcomes :: Mine(s, o))
    && Distinct(BookedIds(s.outcomes))
    && (forall id <- BookedIds(s.outcomes) :: id in s.db.bookings)
    && (s.phase.Undoing? ==> s.phase.done <= |BookedIds(s.outcomes)|)
    && (s.phase.Undoing? ==>
          forall i :: 0 <= i < s.phase.done ==>
            var id := BookedIds(s.outcomes)[i]; !s.db.bookings[id].status.Reserved? || id in s.leftover)
    && (s.phase.Returned? && s.phase.response.BulkFailed? ==>
          forall id <- BookedIds(s.outcomes) :: !s.db.bookings[id].status.Reserved? || id in s.leftover)
  }

  /** Other transactions never bring a booking back to reserved, nor change whose it is. */
  lemma DbMovesOn(s: State, op: Op)
    requires BookingsInv(s)
    ensures BookingsInv(s.(db := Apply(s.db, op).db))
  {
    var s' := s.(db := Apply(s.db, op).db);
    forall id | id in s.db.bookings
      ensures id in s'.db.bookings && Evolves(s.db.bookings[id], s'.db.bookings[id])
      ensures !s.db.bookings[id].status.Reserved? ==> !s'.db.bookings[id].status.Reserved?
    {
      StepEvolves(s.db, op, id);
    }
    forall o | o in s'.outcomes ensures Mine(s', o) {
      assert Mine(s, o);
    }
  }

  lemma BookedSnoc(outcomes: seq<Outcome>, o: Outcome)
    ensures BookedIds(outcomes + [o]) == if o.Booked? then BookedIds(outcomes) + [o.id] else BookedIds(outcomes)
  {
    assert (outcomes + [o])[..|outcomes|] == outcomes;
  }

  lemma TriedBookings(s: State, j: nat, o: Outcome)
    requires BookingsInv(s) && s.phase.Reserving? && j < |s.chunks|
    requires Mine(s, o) && (o.Booked? ==> o.id !in BookedIds(s.outcomes))
    ensures BookingsInv(Tried(s, j, o))
  {
    var s' := Tried(s, j, o);
    BookedSnoc(s.outcomes, o);
    forall x | x in s'.outcomes ensures Mine(s', x) {
      assert Mine(s, x);
    }
  }

  lemma ReserveBookings(s: State, j: nat, c: Clock, until: Time, id: BookingId)
    requires BookingsInv(s) && Trying(s, j)
    ensures BookingsInv(Next(s, ReserveNext(j, c, until, id)))
  {
    var number := s.seats[s.chunks[j].next];
    var op := Op(Reserve(s.user, s.event, number, until, id), c);
    var r := Apply(s.db, op);
    assert r == ReserveTx(s.db, c, s.user, s.event, number, until, id);
    if r.reply.Failed? {
      TriedBookings(s, j, Refused(number, r.reply.error));
    } else {
      DbMovesOn(s, op);
      TriedBookings(s.(db := r.db), j, Booked(number, id));
    }
  }

  lemma UndoBookings(s: State, c: Clock)
    requires BookingsInv(s) && s.phase.Undoing?
    ensures BookingsInv(Next(s, Undo(c)))
  {
    var ids := BookedIds(s.outcomes);
    if s.phase.done < |ids| {
      var op := Op(Cancel(ids[s.phase.done]), c);
      assert Apply(s.db, op) == ReleaseTx(s.db, c, ids[s.phase.done], Cancelled, false);
      DbMovesOn(s, op);
    }
  }

  lemma NextBookings(s: State, a: Action)
    requires BookingsInv(s)
    ensures BookingsInv(Next(s, a))
  {
    match a
    case ReserveNext(j, c, until, id) => if Trying(s, j) { ReserveBookings(s, j, c, until, id); }
    case LockRefused(j, e) => if Trying(s, j) { TriedBookings(s, j, Refused(s.seats[s.chunks[j].next], e)); }
    case Collect =>
    case Undo(c) => if s.phase.Undoing? { UndoBookings(s, c); }
    case UndoFails =>
    case Others(op) => DbMovesOn(s, op);
  }

  lemma {:induction false} RunBookings(s: State, actions: seq<Action>)
    requires BookingsInv(s)
    ensures BookingsInv(RunFrom(s, actions))
  {
    if actions != [] {
      RunBookings(s, actions[..|actions| - 1]);
      NextBookings(RunFrom(s, actions[..|actions| - 1]), actions[|actions| - 1]);
    }
  }

  // ---------------------------------------------------------------- when a phase is reached

  ghost predicate PhaseInv(s: State) {
    && (forall c <- s.chunks :: c.stopped ==> FirstError(s.outcomes).Some?)
    && (s.phase.Returned? && s.phase.response.AllReserved? ==>
          FirstError(s.outcomes).None? && s.phase.response.ids == BookedIds(s.outcomes))
    && (Collected(s.phase) ==> AllReturned(s))
  }

  /** The goroutines are waited for before anything is undone or answered. */
  predicate Collected(phase: Phase) {
    phase.Undoing? || (phase.Returned? && (phase.response.AllReserved? || phase.response.BulkFailed?))
  }

  lemma TriedPhase(s: State, j: nat, o: Outcome)
    requires PhaseInv(s) && Trying(s, j)
    ensures PhaseInv(Tried(s, j, o))
  {
    assert (s.outcomes + [o])[..|s.outcomes|] == s.outcomes;
  }

  lemma {:induction false} RunPhase(s: State, actions: seq<Action>)
    requires PhaseInv(s)
    ensures PhaseInv(RunFrom(s, actions))
  {
    if actions != [] {
      var front, a := actions[..|actions| - 1], actions[|actions| - 1];
      RunPhase(s, front);
      NextPhase(RunFrom(s, front), a);
    }
  }

  lemma NextPhase(s: State, a: Action)
    requires PhaseInv(s)
    ensures PhaseInv(Next(s, a))
  {
    match a
    case ReserveNext(j, c, until, id) =>
      if Trying(s, j) {
        var number := s.seats[s.chunks[j].next];
        TriedPhase(s, j, OutcomeOf(number, id, ReserveTx(s.db, c, s.user, s.event, number, until, id).reply));
      }
    case LockRefused(j, e) => if Trying(s, j) { TriedPhase(s, j, Refused(s.seats[s.chunks[j].next], e)); }
    case _ =>
  }

  lemma {:induction false} RunKeepsRequest(s: State, actions: seq<Action>)
    ensures var t := RunFrom(s, actions); (t.user, t.event, t.seats) == (s.user, s.event, s.seats)
  {
    if actions != [] {
      RunKeepsRequest(s, actions[..|actions| - 1]);
    }
  }

  lemma {:induction false} FreshChunks(n: nat)
    ensures forall c <- Chunks(n) :: !c.stopped
  {
    if n > 0 {
      FreshChunks(LastChunkStart(n));
    }
  }

  lemma BeginInv(db: Db, user: UserId, event: EventId, seats: seq<string>, x: string)
    ensures var s := Begin(db, user, event, seats); AccountedFor(s, x) && BookingsInv(s) && PhaseInv(s)
  {
    ChunksCover(seats, |seats|, x);
    FreshChunks(|seats|);
  }

  // ---------------------------------------------------------------- what the caller gets

  lemma {:induction false} NoErrorAllBooked(outcomes: seq<Outcome>)
    requires FirstError(outcomes).None?
    ensures |BookedIds(outcomes)| == |Numbers(outcomes)| == |outcomes|
    ensures forall i :: 0 <= i < |outcomes| ==> outcomes[i] == Booked(Numbers(outcomes)[i], BookedIds(outcomes)[i])
  {
    if outcomes != [] {
      NoErrorAllBooked(outcomes[..|outcomes| - 1]);
    }
  }

  lemma {:induction false} NumbersLength(outcomes: seq<Outcome>)
    ensures |Numbers(outcomes)| == |outcomes|
  {
    if outcomes != [] {
      NumbersLength(outcomes[..|outcomes| - 1]);
    }
  }

  lemma OutcomesWithin(s: State)
    requires forall x :: AccountedFor(s, x)
    ensures multiset(Numbers(s.outcomes)) <= multiset(s.seats)
  {
    forall x ensures multiset(Numbers(s.outcomes))[x] <= multiset(s.seats)[x] {
      assert AccountedFor(s, x);
      OutcomesForIsMultiplicity(s.outcomes, x);
      CountIsMultiplicity(s.seats, |s.seats|, x);
      assert s.seats[..|s.seats|] == s.seats;
    }
  }

  /**
   The channel has room for one outcome per requested seat, and no more are ever sent: a goroutine
   never blocks on it, whoever receives and however slowly.
   */
  lemma ChannelNeverBlocks(db: Db, user: UserId, event: EventId, seats: seq<string>, actions: seq<Action>)
    ensures |RunFrom(Begin(db, user, event, seats), actions).outcomes| <= |seats|
  {
    var s := RunFrom(Begin(db, user, event, seats), actions);
    forall x ensures AccountedFor(s, x) {
      BeginInv(db, user, event, seats, x);
      RunAccounted(Begin(db, user, event, seats), actions, x);
    }
    RunKeepsRequest(Begin(db, user, event, seats), actions);
    OutcomesWithin(s);
    NumbersLength(s.outcomes);
    assert multiset(s.seats) == multiset(Numbers(s.outcomes)) + (multiset(s.seats) - multiset(Numbers(s.outcomes)));
  }

  /** The seat numbers of bookings, in order. */
  function SeatNumbersOf(db: Db, ids: seq<BookingId>): seq<string>
    requires forall id <- ids :: id in db.bookings
  {
    if ids == [] then [] else SeatNumbersOf(db, ids[..|ids| - 1]) + [db.bookings[ids[|ids| - 1]].seat.number]
  }

  lemma {:induction false} BookedNumbers(s: State, outcomes: seq<Outcome>)
    requires FirstError(outcomes).None? && forall o <- outcomes :: Mine(s, o)
    ensures forall id <- BookedIds(outcomes) ::
              id in s.db.bookings && s.db.bookings[id].user == s.user && s.db.bookings[id].event == s.event
    ensures SeatNumbersOf(s.db, BookedIds(outcomes)) == Numbers(outcomes)
  {
    if outcomes != [] {
      var front, last := outcomes[..|outcomes| - 1], outcomes[|outcomes| - 1];
      BookedNumbers(s, front);
      assert Mine(s, last);
      assert BookedIds(outcomes)[..|BookedIds(front)|] == BookedIds(front);
    }
  }

  lemma NothingLeftToTry(s: State)
    requires PhaseInv(s) && s.phase.Returned? && s.phase.response.AllReserved?
    ensures FirstError(s.outcomes).None? && s.phase.response.ids == BookedIds(s.outcomes)
    ensures forall c <- s.chunks :: c.next >= c.end
  {
  }

  /** Every requested seat number has an outcome, as often as it was requested. */
  lemma SuccessNumbers(s: State)
    requires (forall x :: AccountedFor(s, x)) && forall c <- s.chunks :: c.next >= c.end
    ensures multiset(Numbers(s.outcomes)) == multiset(s.seats)
    ensures |Numbers(s.outcomes)| == |s.seats|
  {
    forall x ensures multiset(Numbers(s.outcomes))[x] == multiset(s.seats)[x] {
      assert AccountedFor(s, x);
      AllTried(s.seats, s.chunks, x);
      OutcomesForIsMultiplicity(s.outcomes, x);
      CountIsMultiplicity(s.seats, |s.seats|, x);
      assert s.seats[..|s.seats|] == s.seats;
    }
    assert |multiset(Numbers(s.outcomes))| == |Numbers(s.outcomes)|;
    assert |multiset(s.seats)| == |s.seats|;
  }

  /**
   Success means one booking per requested seat number, all distinct, all for this user and event,
   whatever else happened meanwhile.
   */
  lemma SuccessBooksEverySeat(
    db: Db, user: UserId, event: EventId, seats: seq<string>, actions: seq<Action>, ids: seq<BookingId>)
    requires RunFrom(Begin(db, user, event, seats), actions).phase == Returned(AllReserved(ids))
    ensures var s := RunFrom(Begin(db, user, event, seats), actions);
            && |ids| == |seats| && Distinct(ids)
            && (forall id <- ids ::
                  id in s.db.bookings && s.db.bookings[id].user == user && s.db.bookings[id].event == event)
            && multiset(SeatNumbersOf(s.db, ids)) == multiset(seats)
  {
    var s0 := Begin(db, user, event, seats);
    var s := RunFrom(s0, actions);
    BeginInv(db, user, event, seats, "");
    RunKeepsRequest(s0, actions);
    RunPhase(s0, actions);
    NothingLeftToTry(s);
    RunBookings(s0, actions);
    NoErrorAllBooked(s.outcomes);
    BookedNumbers(s, s.outcomes);
    forall x ensures AccountedFor(s, x) {
      BeginInv(db, user, event, seats, x);
      RunAccounted(s0, actions, x);
    }
    SuccessNumbers(s);
  }

  /**
   A failed call leaves none of the bookings it made reserved, but those whose cancellation the database
   refused, whatever else happened meanwhile.
   */
  lemma FailureLeavesNothingReserved(
    db: Db, user: UserId, event: EventId, seats: seq<string>, actions: seq<Action>)
    requires var s := RunFrom(Begin(db, user, event, seats), actions); s.phase.Returned? && s.phase.response.BulkFailed?
    ensures var s := RunFrom(Begin(db, user, event, seats), actions);
            forall o <- s.outcomes :: o.Booked? ==>
              o.id in s.db.bookings && (!s.db.bookings[o.id].status.Reserved? || o.id in s.leftover)
  {
    BeginInv(db, user, event, seats, "");
    RunBookings(Begin(db, user, event, seats), actions);
    AllBookedListed(RunFrom(Begin(db, user, event, seats), actions).outcomes);
  }

  lemma {:induction false} AllBookedListed(outcomes: seq<Outcome>)
    ensures forall o <- outcomes :: o.Booked? ==> o.id in BookedIds(outcomes)
  {
    if outcomes != [] {
      AllBookedListed(outcomes[..|outcomes| - 1]);
      assert outcomes == outcomes[..|outcomes| - 1] + [outcomes[|outcomes| - 1]];
    }
  }

  // ---------------------------------------------------------------- which requests are refused

  /** What the other actors did, in order. */
  function OthersOps(actions: seq<Action>): seq<Op> {
    if actions == [] then []
    else
      var front, last := actions[..|actions| - 1], actions[|actions| - 1];
      if last.Others? then OthersOps(front) + [last.op] else OthersOps(front)
  }

  lemma {:induction false} ReturnedStays(s: State, actions: seq<Action>)
    requires s.phase.Returned?
    ensures var t := RunFrom(s, actions);
            t.phase == s.phase && t.outcomes == s.outcomes && t.db == Run(s.db, OthersOps(actions))
  {
    if actions != [] {
      var front, last := actions[..|actions| - 1], actions[|actions| - 1];
      ReturnedStays(s, front);
      if last.Others? {
        RunSnoc(s.db, OthersOps(front), last.op);
      }
    }
  }

  predicate Refusing(phase: Phase) {
    phase.Returned? && (phase.response.NoSeatsRequested? || phase.response.TooManySeats?)
  }

  lemma NextNotRefused(s: State, a: Action)
    requires !Refusing(s.phase)
    ensures !Refusing(Next(s, a).phase)
  {
  }

  lemma {:induction false} NotRefusedLater(s: State, actions: seq<Action>)
    requires !Refusing(s.phase)
    ensures !Refusing(RunFrom(s, actions).phase)
  {
    if actions != [] {
      NotRefusedLater(s, actions[..|actions| - 1]);
      NextNotRefused(RunFrom(s, actions[..|actions| - 1]), actions[|actions| - 1]);
    }
  }

  /** Exactly the empty and the too long requests are refused, and then the call does nothing at all. */
  lemma {:induction false} RefusesExactly(
    db: Db, user: UserId, event: EventId, seats: seq<string>, actions: seq<Action>)
    ensures var s := RunFrom(Begin(db, user, event, seats), actions);
            && (s.phase == Returned(NoSeatsRequested) <==> |seats| == 0)
            && (s.phase == Returned(TooManySeats) <==> |seats| > 500)
            && (|seats| == 0 || |seats| > 500 ==> s.outcomes == [] && s.db == Run(db, OthersOps(actions)))
  {
    var s := Begin(db, user, event, seats);
    if Refusing(s.phase) {
      ReturnedStays(s, actions);
    } else {
      NotRefusedLater(s, actions);
    }
  }

  // ---------------------------------------------------------------- which calls fail

  /** The error with which an action refuses a seat to the call, if it does. */
  function Refusal(s: State, a: Action): Option<Error> {
    match a
    case ReserveNext(j, c, until, id) =>
      if !Trying(s, j) then None
      else
        (match ReserveTx(s.db, c, s.user, s.event, s.seats[s.chunks[j].next], until, id).reply
         case Failed(e) => Some(e)
         case _ => None)
    case LockRefused(j, e) => if Trying(s, j) then Some(e) else None
    case _ => None
  }

  function FirstRefusal(s: State, actions: seq<Action>): Option<Error> {
    if actions == [] then None
    else
      match FirstRefusal(s, actions[..|actions| - 1])
      case Some(e) => Some(e)
      case None => Refusal(RunFrom(s, actions[..|actions| - 1]), actions[|actions| - 1])
  }

  lemma FirstErrorSnoc(outcomes: seq<Outcome>, o: Outcome)
    ensures FirstError(outcomes + [o]) ==
              if FirstError(outcomes).Some? then FirstError(outcomes) else if o.Refused? then Some(o.error) else None
  {
    assert (outcomes + [o])[..|outcomes|] == outcomes;
  }

  lemma NextRefusal(s: State, a: Action)
    ensures FirstError(Next(s, a).outcomes) ==
              if FirstError(s.outcomes).Some? then FirstError(s.outcomes) else Refusal(s, a)
  {
    match a
    case ReserveNext(j, c, until, id) =>
      if Trying(s, j) {
        var number := s.seats[s.chunks[j].next];
        FirstErrorSnoc(s.outcomes, OutcomeOf(number, id, ReserveTx(s.db, c, s.user, s.event, number, until, id).reply));
      }
    case LockRefused(j, e) => if Trying(s, j) { FirstErrorSnoc(s.outcomes, Refused(s.seats[s.chunks[j].next], e)); }
    case _ =>
  }

  /** The answer agrees with the first error so far. */
  ghost predicate AnswerInv(s: State) {
    && (s.phase.Undoing? ==> FirstError(s.outcomes).Some?)
    && (s.phase.Returned? && s.phase.response.BulkFailed? ==> FirstError(s.outcomes) == Some(s.phase.response.error))
    && (s.phase.Returned? && s.phase.response.AllReserved? ==> FirstError(s.outcomes).None?)
  }

  lemma {:induction false} RunRefusals(s: State, actions: seq<Action>)
    requires s.outcomes == [] && AnswerInv(s)
    ensures FirstError(RunFrom(s, actions).outcomes) == FirstRefusal(s, actions) && AnswerInv(RunFrom(s, actions))
  {
    if actions != [] {
      RunRefusals(s, actions[..|actions| - 1]);
      NextRefusal(RunFrom(s, actions[..|actions| - 1]), actions[|actions| - 1]);
    }
  }

  /**
   A call fails exactly if some seat was refused to it, and answers with the first refusal; and it does
   not answer before every goroutine has returned.
   */
  lemma {:induction false} FailsExactly(
    db: Db, user: UserId, event: EventId, seats: seq<string>, actions: seq<Action>)
    requires 1 <= |seats| <= 500 && RunFrom(Begin(db, user, event, seats), actions).phase.Returned?
    ensures var s := RunFrom(Begin(db, user, event, seats), actions);
            && (forall j: nat :: j < |s.chunks| ==> s.chunks[j].stopped || s.chunks[j].next >= s.chunks[j].end)
            && (match FirstRefusal(Begin(db, user, event, seats), actions)
                case Some(e) => s.phase.response == BulkFailed(e)
                case None => s.phase.response == AllReserved(BookedIds(s.outcomes)))
  {
    var s0 := Begin(db, user, event, seats);
    RunRefusals(s0, actions);
    RefusesExactly(db, user, event, seats, actions);
    BeginInv(db, user, event, seats, "");
    RunPhase(s0, actions);
  }

  lemma NextStopped(s: State, a: Action, j: nat)
    requires j < |s.chunks|
    ensures j < |Next(s, a).chunks| && (s.chunks[j].stopped ==> Next(s, a).chunks[j].stopped)
    ensures Refusal(s, a).Some? && a.chunk == j ==> Next(s, a).chunks[j].stopped
  {
  }

  lemma {:induction false} RunStopped(s: State, actions: seq<Action>, i: nat, k: nat, j: nat)
    requires i <= k <= |actions| && j < |RunFrom(s, actions[..i]).chunks|
    requires RunFrom(s, actions[..i]).chunks[j].stopped
    ensures var t := RunFrom(s, actions[..k]); j < |t.chunks| && t.chunks[j].stopped
  {
    if i < k {
      RunStopped(s, actions, i, k - 1, j);
      assert actions[..k][..k - 1] == actions[..k - 1];
      NextStopped(RunFrom(s, actions[..k - 1]), actions[k - 1], j);
    }
  }

  /** A goroutine that was refused a seat tries no other. */
  lemma {:induction false} StopsAtRefusal(s: State, actions: seq<Action>, i: nat, k: nat)
    requires i < k <= |actions| && Refusal(RunFrom(s, actions[..i]), actions[i]).Some?
    ensures !Trying(RunFrom(s, actions[..k]), actions[i].chunk)
  {
    var j := actions[i].chunk;
    NextStopped(RunFrom(s, actions[..i]), actions[i], j);
    assert actions[..i + 1][..i] == actions[..i];
    RunStopped(s, actions, i + 1, k, j);
  }

  // ---------------------------------------------------------------- the call ends

  function Untried(): Chunk -> nat {
    (c: Chunk) => if c.stopped || c.next >= c.end then 0 else c.end - c.next
  }

  /** The most steps the call still takes. */
  function Left(s: State): nat {
    match s.phase
    case Reserving => 2 * Sum(s.chunks, Untried()) + |BookedIds(s.outcomes)| + 2
    case Undoing(done) => if done <= |BookedIds(s.outcomes)| then |BookedIds(s.outcomes)| - done + 1 else 1
    case Returned(_) => 0
  }

  lemma TriedLeft(s: State, j: nat, o: Outcome)
    requires Trying(s, j)
    ensures Left(Tried(s, j, o)) < Left(s)
  {
    var c := s.chunks[j];
    SumUpdate(s.chunks, j, c.(next := c.next + 1, stopped := o.Refused?), Untried());
    BookedSnoc(s.outcomes, o);
  }

  /** A step brings the call nearer to its end or does nothing to it, whoever takes it. */
  lemma StepLeft(s: State, a: Action)
    ensures Left(Next(s, a)) < Left(s) || Next(s, a) == s.(db := Next(s, a).db)
    ensures a.Others? ==> Next(s, a) == s.(db := Next(s, a).db)
  {
    match a
    case ReserveNext(j, c, until, id) =>
      if Trying(s, j) {
        var number := s.seats[s.chunks[j].next];
        TriedLeft(s, j, OutcomeOf(number, id, ReserveTx(s.db, c, s.user, s.event, number, until, id).reply));
      }
    case LockRefused(j, e) => if Trying(s, j) { TriedLeft(s, j, Refused(s.seats[s.chunks[j].next], e)); }
    case _ =>
  }

  predicate ChunksFit(s: State) {
    forall c <- s.chunks :: c.end <= |s.seats|
  }

  lemma {:induction false} FreshFit(n: nat)
    ensures forall c <- Chunks(n) :: c.end <= n
  {
    if n > 0 {
      FreshFit(LastChunkStart(n));
    }
  }

  lemma {:induction false} RunFit(s: State, actions: seq<Action>)
    requires ChunksFit(s)
    ensures ChunksFit(RunFrom(s, actions))
  {
    if actions != [] {
      RunFit(s, actions[..|actions| - 1]);
    }
  }

  /** Until it has returned, the call has a step of its own to take. */
  lemma CanMove(s: State) returns (a: Action)
    requires ChunksFit(s) && AnswerInv(s) && !s.phase.Returned?
    ensures !a.Others? && !a.LockRefused? && Left(Next(s, a)) < Left(s)
  {
    if s.phase.Undoing? {
      a := Undo(Clock(0, 0, 0));
    } else if AllReturned(s) {
      a := Collect;
    } else {
      var c :| c in s.chunks && !c.stopped && c.next < c.end;
      var j :| 0 <= j < |s.chunks| && s.chunks[j] == c;
      a := ReserveNext(j, Clock(0, 0, 0), 0, 0);
      StepLeft(s, a);
    }
  }

  /** How many steps of a run do something to the call. */
  function OwnSteps(s: State, actions: seq<Action>): nat {
    if actions == [] then 0
    else
      var before := RunFrom(s, actions[..|actions| - 1]);
      var after := Next(before, actions[|actions| - 1]);
      OwnSteps(s, actions[..|actions| - 1]) + if after == before.(db := after.db) then 0 else 1
  }

  lemma {:induction false} StepsLeft(s: State, actions: seq<Action>)
    ensures OwnSteps(s, actions) + Left(RunFrom(s, actions)) <= Left(s)
  {
    if actions != [] {
      StepsLeft(s, actions[..|actions| - 1]);
      StepLeft(RunFrom(s, actions[..|actions| - 1]), actions[|actions| - 1]);
    }
  }

  lemma {:induction false} UntriedAll(n: nat)
    ensures Sum(Chunks(n), Untried()) == n
  {
    if n > 0 {
      var start := LastChunkStart(n);
      UntriedAll(start);
      SumSnoc(Chunks(start), Chunk(start, n, false), Untried());
    }
  }

  /**
   A call that is not refused takes at most twice as many steps as it has seats, and two, whatever the
   others do; and until it has answered with its bookings or an error it always has a step to take.
   */
  lemma {:induction false} CallEnds(
    db: Db, user: UserId, event: EventId, seats: seq<string>, actions: seq<Action>) returns (a: Action)
    requires 1 <= |seats| <= 500
    ensures var s0 := Begin(db, user, event, seats);
            var s := RunFrom(s0, actions);
            && OwnSteps(s0, actions) + Left(s) <= 2 * |seats| + 2
            && (if s.phase.Returned? then s.phase.response.AllReserved? || s.phase.response.BulkFailed?
                else !a.Others? && !a.LockRefused? && Left(Next(s, a)) < Left(s))
  {
    var s0 := Begin(db, user, event, seats);
    UntriedAll(|seats|);
    StepsLeft(s0, actions);
    RefusesExactly(db, user, event, seats, actions);
    FreshFit(|seats|);
    RunFit(s0, actions);
    RunRefusals(s0, actions);
    a := Collect;
    if !RunFrom(s0, actions).phase.Returned? {
      a := CanMove(RunFrom(s0, actions));
    }
  }
}
