/**
 What holds along every run of committed transactions, starting from empty tables.
 */
module LedgerRuns {
  import opened Prelude
  import opened Ledger

  /** The tables after the transactions `ops`, committed in that order. */
  function Run(db: Db, ops: seq<Op>): Db {
    if ops == [] then db else Apply(Run(db, ops[..|ops| - 1]), ops[|ops| - 1]).db
  }

  lemma RunSnoc(db: Db, ops: seq<Op>, op: Op)
    ensures Run(db, ops + [op]) == Apply(Run(db, ops), op).db
  {
    assert (ops + [op])[..|ops|] == ops;
  }

  lemma RunNext(ops: seq<Op>, j: nat)
    requires j < |ops|
    ensures Run(EMPTY, ops[..j + 1]) == Apply(Run(EMPTY, ops[..j]), ops[j]).db
  {
    assert ops[..j + 1] == ops[..j] + [ops[j]];
    RunSnoc(EMPTY, ops[..j], ops[j]);
  }

  /** The reply of the `i`-th transaction of the run. */
  function ReplyAt(ops: seq<Op>, i: nat): Reply
    requires i < |ops|
  {
    Apply(Run(EMPTY, ops[..i]), ops[i]).reply
  }

  lemma {:induction false} RunKeepsInv(db: Db, ops: seq<Op>)
    requires Inv(db)
    ensures Inv(Run(db, ops))
  {
    if ops != [] {
      RunKeepsInv(db, ops[..|ops| - 1]);
      ApplyKeepsInv(Run(db, ops[..|ops| - 1]), ops[|ops| - 1]);
    }
  }

  lemma EmptyInv()
    ensures Inv(EMPTY)
  {
  }

  /** Every reachable state satisfies the ledger invariant. */
  lemma {:induction false} ReachableInv(ops: seq<Op>)
    ensures Inv(Run(EMPTY, ops))
  {
    EmptyInv();
    RunKeepsInv(EMPTY, ops);
  }

  // ---------------------------------------------------------------- seats, bookings and counters agree

  /** The status of a seat is decided by who holds it, and nobody shares a seat. */
  lemma SeatStatusMeaning(ops: seq<Op>, s: SeatId)
    requires s in Run(EMPTY, ops).seats
    ensures var db := Run(EMPTY, ops);
            var status := db.seats[s].status;
            && (status.Available? <==> Holders(db, s) == {})
            && (status.Reserved? <==> exists id <- db.bookings ::
                  Holders(db, s) == {id} && db.bookings[id].status.Reserved?)
            && (status.Sold? <==> exists id <- db.bookings ::
                  Holders(db, s) == {id} && db.bookings[id].status.Purchased?)
  {
    ReachableInv(ops);
    var db := Run(EMPTY, ops);
    forall id | id in Holders(db, s) ensures Holders(db, s) == {id} {}
    if Holders(db, s) != {} {
      var id :| id in Holders(db, s);
      assert id in db.bookings && Holders(db, s) == {id};
    }
  }

  /**
   The counter of an event counts its available seats exactly from the moment its seats are
   inserted; between the two transactions of event creation (or after the second one failed)
   it counts seats that do not exist.
   */
  lemma CounterMeaning(ops: seq<Op>, e: EventId)
    requires e in Run(EMPTY, ops).events
    ensures var db := Run(EMPTY, ops);
            db.events[e].available == |AvailableSeats(db, e)| <==> (SeatsOf(db, e) != {} || db.events[e].total == 0)
  {
    ReachableInv(ops);
    var db := Run(EMPTY, ops);
    assert CounterExact(db, e);
    assert AvailableSeats(db, e) <= SeatsOf(db, e);
  }

  /** A free seat carries no hold, so the hold guard of a reservation never rejects: the clock is irrelevant. */
  lemma {:induction false} ReserveIgnoresClock(
    ops: seq<Op>, c: Clock, d: Clock, user: UserId, e: EventId, number: string, until: Time, id: BookingId)
    ensures var db := Run(EMPTY, ops);
            && ReserveTx(db, c, user, e, number, until, id) == ReserveTx(db, d, user, e, number, until, id)
            && (ReserveTx(db, c, user, e, number, until, id).reply.Done? <==>
                  && SeatId(e, number) in db.seats && Holders(db, SeatId(e, number)) == {} && id !in db.bookings)
  {
    ReachableInv(ops);
    var db := Run(EMPTY, ops);
    var s := SeatId(e, number);
    if s in db.seats {
      SeatStatusMeaning(ops, s);
      assert CounterExact(db, e) && s in SeatsOf(db, e);
      assert db.seats[s].status.Available? ==> s in AvailableSeats(db, e);
    }
  }

  // ---------------------------------------------------------------- which requests are granted, and what they do

  predicate IsReserved(db: Db, id: BookingId) {
    id in db.bookings && db.bookings[id].status.Reserved?
  }

  /** When the request succeeds; guards on seats, events and counters are not among the reasons. */
  predicate Granted(db: Db, request: Request, c: Clock) {
    match request
    case CreateEvent(e, _, _) => e !in db.events
    case SeedSeats(e) => e in db.events && SeatsOf(db, e) == {}
    case Reserve(_, e, number, _, id) =>
      SeatId(e, number) in db.seats && Holders(db, SeatId(e, number)) == {} && id !in db.bookings
    case SetIntent(id, _) => id in db.bookings && (db.bookings[id].Live() || db.bookings[id].intent.Some?)
    case Extend(id, until, entered) =>
      && IsReserved(db, id) && entered < until
      && c.start < db.bookings[id].expiresAt && c.second <= db.bookings[id].expiresAt
    case Complete(id) =>
      || (id in db.bookings && db.bookings[id].status.Purchased?)
      || (IsReserved(db, id) && c.start < db.bookings[id].expiresAt && c.first <= db.bookings[id].expiresAt)
    case Revert(id) => id in db.bookings && db.bookings[id].status.Purchased?
    case Expire(id) => IsReserved(db, id) && db.bookings[id].expiresAt <= c.start
    case Cancel(id) => IsReserved(db, id)
  }

  /** The error a refused request is answered with: what is missing comes first, then what stands against it. */
  function Cause(db: Db, request: Request, c: Clock): Error {
    match request
    case CreateEvent(_, _, _) => UniqueViolation
    case SeedSeats(e) => if e !in db.events then EventNotFound else UniqueViolation
    case Reserve(_, e, number, _, _) =>
      var s := SeatId(e, number);
      if e !in db.events then EventNotFound
      else if db.events[e].available <= 0 then NoAvailableSeats
      else if s !in db.seats then SeatNotFound
      else if Holders(db, s) != {} then SeatNotAvailable
      else UniqueViolation
    case Extend(id, until, entered) =>
      if until <= entered then BookingExpired
      else if id !in db.bookings then BookingNotFound
      else if !IsReserved(db, id) then BookingNotReserved
      else if db.bookings[id].expiresAt < c.first then BookingExpired
      else if db.bookings[id].expiresAt < c.second then SeatNotAvailable
      else BookingNotReserved
    case Complete(id) =>
      if id !in db.bookings then BookingNotFound
      else if IsReserved(db, id) && db.bookings[id].expiresAt < c.first then BookingExpired
      else BookingNotReserved
    case Revert(id) => if id !in db.bookings then BookingNotFound else BookingNotPurchased
    case _ => if request.id !in db.bookings then BookingNotFound else BookingNotReserved
  }

  /** A new reservation is what was asked for, at the price of its event. */
  predicate Reserved(db: Db, request: Request, b: Booking)
    requires request.Reserve?
  {
    && b.user == request.user && b.event == request.event && b.seat == SeatId(request.event, request.number)
    && b.status.Reserved? && b.expiresAt == request.until && b.purchasedAt.None? && b.intent.None?
    && b.event in db.events && b.amount == db.events[b.event].price
  }

  /** What a granted request on a booking leaves in its row, seen next to the row `b` it found. */
  predicate Turned(request: Request, b: Booking, after: Booking) {
    match request
    case SetIntent(_, intent) =>
      after == b.(intent := if b.intent.Some? then b.intent else if intent == "" then None else Some(intent))
    case Extend(_, until, _) =>
      after == b.(expiresAt := after.expiresAt) && after.expiresAt in {b.expiresAt, until}
      && b.expiresAt <= after.expiresAt && until <= after.expiresAt
    case Complete(_) => after == b.(status := Purchased, purchasedAt := after.purchasedAt)
    case Revert(_) => after == b.(status := Cancelled, purchasedAt := None, intent := None)
    case Expire(_) => after == b.(status := BookingStatus.Expired)
    case Cancel(_) => after == b.(status := Cancelled)
    case _ => true
  }

  /**
   In every reachable state and under every clock that does not go back, a request succeeds exactly when
   it is granted, turns its booking as it should and replies with it; otherwise it changes nothing and
   says why.
   */
  lemma {:induction false} GrantedExactly(ops: seq<Op>, op: Op)
    requires op.clock.Monotone()
    ensures var db, r := Run(EMPTY, ops), Apply(Run(EMPTY, ops), op);
            && (r.reply.Failed? <==> !Granted(db, op.request, op.clock))
            && (r.reply.Failed? ==> r.db == db && r.reply.error == Cause(db, op.request, op.clock))
            && (r.reply.Done? ==> op.request.id in r.db.bookings && r.db.bookings[op.request.id] == r.reply.booking)
            && (r.reply.Done? ==>
                  if op.request.Reserve? then Reserved(db, op.request, r.reply.booking)
                  else op.request.id in db.bookings
                       && Turned(op.request, db.bookings[op.request.id], r.reply.booking))
  {
    ReachableInv(ops);
    var db, c := Run(EMPTY, ops), op.clock;
    match op.request {
      case Reserve(user, e, number, until, id) =>
        ReserveIgnoresClock(ops, c, c, user, e, number, until, id);
        if SeatId(e, number) in db.seats {
          SeatStatusMeaning(ops, SeatId(e, number));
        }
      case SeedSeats(e) => SeedGranted(db, e);
      case _ => RowsGranted(db, op);
    }
  }

  lemma SeedGranted(db: Db, e: EventId)
    requires Inv(db)
    ensures SeedSeatsTx(db, e).reply.Failed? <==> !(e in db.events && SeatsOf(db, e) == {})
  {
    if e in db.events {
      assert CounterExact(db, e);
      var block := SeatBlock(e, db.events[e].total);
      if SeatsOf(db, e) == {} {
        forall s | s in block ensures s !in db.seats {
          assert s in db.seats ==> s in SeatsOf(db, e);
        }
      } else {
        var s :| s in SeatsOf(db, e);
        assert s in block && s in db.seats;
      }
    }
  }

  lemma RowsGranted(db: Db, op: Op)
    requires RowsLinked(db) && op.clock.Monotone() && !op.request.Reserve? && !op.request.SeedSeats?
    ensures var r := Apply(db, op);
            && (r.reply.Failed? <==> !Granted(db, op.request, op.clock))
            && (r.reply.Failed? ==> r.db == db && r.reply.error == Cause(db, op.request, op.clock))
            && (r.reply.Done? ==> op.request.id in r.db.bookings && r.db.bookings[op.request.id] == r.reply.booking)
            && (r.reply.Done? ==>
                  op.request.id in db.bookings && Turned(op.request, db.bookings[op.request.id], r.reply.booking))
  {
    if !op.request.CreateEvent? && op.request.id in db.bookings {
      var b := db.bookings[op.request.id];
      assert Agree(b, db.seats[b.seat]);
    }
  }

  // ---------------------------------------------------------------- what a booking can become

  /**
   How a booking may change while other transactions commit: who and what it is never change;
   deadlines only move forward; terminal statuses are final; a stored payment intent is never
   replaced, and only a cancellation may drop it.
   */
  predicate Evolves(b: Booking, c: Booking) {
    && (b.user, b.event, b.seat, b.amount) == (c.user, c.event, c.seat, c.amount)
    && b.expiresAt <= c.expiresAt
    && (!b.Live() ==> c == b)
    && (b.status.Purchased? ==> c.expiresAt == b.expiresAt && !c.status.Reserved? && !c.status.Expired?)
    && (b.status.Purchased? && c.status.Purchased? ==> c.purchasedAt == b.purchasedAt)
    && (b.intent.Some? ==> c.intent == b.intent || (c.intent.None? && c.status.Cancelled?))
  }

  lemma StepEvolves(db: Db, op: Op, id: BookingId)
    requires id in db.bookings
    ensures id in Apply(db, op).db.bookings && Evolves(db.bookings[id], Apply(db, op).db.bookings[id])
  {
    match op.request
    case Reserve(_, _, _, _, _) =>
    case _ =>
  }

  /** Between any two points of a run a booking evolves. */
  lemma {:induction false} BookingEvolves(db: Db, ops: seq<Op>, id: BookingId)
    requires id in db.bookings
    ensures id in Run(db, ops).bookings && Evolves(db.bookings[id], Run(db, ops).bookings[id])
  {
    if ops != [] {
      var front := ops[..|ops| - 1];
      BookingEvolves(db, front, id);
      StepEvolves(Run(db, front), ops[|ops| - 1], id);
    }
  }

  lemma {:induction false} RunSplit(db: Db, ops: seq<Op>, i: nat)
    requires i <= |ops|
    ensures Run(db, ops) == Run(Run(db, ops[..i]), ops[i..])
  {
    if i == |ops| {
      assert ops[..i] == ops;
    } else {
      var front := ops[..|ops| - 1];
      RunSplit(db, front, i);
      assert front[..i] == ops[..i];
      assert ops[i..][..|ops| - i - 1] == front[i..];
    }
  }

  /** Between the `i`-th and the `j`-th commit of a run a booking evolves. */
  lemma EvolvesBetween(ops: seq<Op>, i: nat, j: nat, id: BookingId)
    requires i <= j <= |ops| && id in Run(EMPTY, ops[..i]).bookings
    ensures id in Run(EMPTY, ops[..j]).bookings
    ensures Evolves(Run(EMPTY, ops[..i]).bookings[id], Run(EMPTY, ops[..j]).bookings[id])
  {
    RunSplit(EMPTY, ops[..j], i);
    assert ops[..j][..i] == ops[..i];
    BookingEvolves(Run(EMPTY, ops[..i]), ops[..j][i..], id);
  }

  /** The payment intent a booking stores after `n` transactions of the run. */
  function IntentAt(ops: seq<Op>, n: nat, id: BookingId): Option<string>
    requires n <= |ops| && id in Run(EMPTY, ops[..n]).bookings
  {
    Run(EMPTY, ops[..n]).bookings[id].intent
  }

  /**
   Over a whole run a booking stores at most one payment intent: two stored values are the same
   one, and once dropped none is ever stored again.
   */
  lemma {:induction false} OneIntentEver(ops: seq<Op>, id: BookingId, i: nat, j: nat, k: nat)
    requires i <= j <= k <= |ops| && id in Run(EMPTY, ops[..i]).bookings
    ensures id in Run(EMPTY, ops[..j]).bookings && id in Run(EMPTY, ops[..k]).bookings
    ensures IntentAt(ops, i, id).Some? ==>
              && (IntentAt(ops, j, id).Some? ==> IntentAt(ops, j, id) == IntentAt(ops, i, id))
              && (IntentAt(ops, j, id).None? ==>
                    IntentAt(ops, k, id).None? && Run(EMPTY, ops[..j]).bookings[id].status.Cancelled?)
  {
    EvolvesBetween(ops, i, j, id);
    EvolvesBetween(ops, j, k, id);
  }

  /** A granted extension is kept: from then on the deadline is never before what was asked for. */
  lemma ExtensionKept(ops: seq<Op>, j: nat, k: nat, id: BookingId, until: Time, entered: Time)
    requires j < k <= |ops| && ops[j].request == Extend(id, until, entered)
    requires Apply(Run(EMPTY, ops[..j]), ops[j]).reply.Done?
    ensures id in Run(EMPTY, ops[..k]).bookings && Run(EMPTY, ops[..k]).bookings[id].expiresAt >= until
  {
    RunNext(ops, j);
    EvolvesBetween(ops, j + 1, k, id);
  }

  // ---------------------------------------------------------------- where an event and its seats come from

  /** The `i`-th transaction of the run created the event with these terms. */
  predicate CreatedBy(ops: seq<Op>, i: nat, e: EventId, total: nat, price: real)
    requires i < |ops|
  {
    ops[i].request == CreateEvent(e, total, price) && ReplyAt(ops, i).Created?
  }

  lemma NewEventTerms(db: Db, op: Op, e: EventId)
    requires e !in db.events && e in Apply(db, op).db.events
    ensures var row := Apply(db, op).db.events[e];
            op.request == CreateEvent(e, row.total, row.price) && Apply(db, op).reply.Created?
  {
  }

  /** Nothing changes the size or the price of an event. */
  lemma TermsStay(db: Db, op: Op, e: EventId)
    requires e in db.events
    ensures e in Apply(db, op).db.events
    ensures Apply(db, op).db.events[e].total == db.events[e].total
    ensures Apply(db, op).db.events[e].price == db.events[e].price
  {
  }

  /** Every event has the size and the price that the transaction of the run that created it asked for. */
  lemma {:induction false} EventTerms(ops: seq<Op>, e: EventId) returns (i: nat)
    requires e in Run(EMPTY, ops).events
    ensures var row := Run(EMPTY, ops).events[e]; i < |ops| && CreatedBy(ops, i, e, row.total, row.price)
  {
    var front, op := ops[..|ops| - 1], ops[|ops| - 1];
    var db := Run(EMPTY, front);
    if e in db.events {
      i := EventTerms(front, e);
      TermsStay(db, op, e);
      assert ops[..i] == front[..i];
    } else {
      i := |front|;
      NewEventTerms(db, op, e);
    }
  }

  lemma {:induction false} CreatedKept(ops: seq<Op>, i: nat, e: EventId, total: nat, price: real)
    requires i < |ops| && CreatedBy(ops, i, e, total, price)
    ensures var db := Run(EMPTY, ops); e in db.events && db.events[e].total == total && db.events[e].price == price
  {
    var front, op := ops[..|ops| - 1], ops[|ops| - 1];
    if i < |front| {
      assert ops[..i] == front[..i];
      CreatedKept(front, i, e, total, price);
      TermsStay(Run(EMPTY, front), op, e);
    }
  }

  /** A transaction of the run inserted the seats of the event. */
  ghost predicate Seeded(ops: seq<Op>, e: EventId) {
    exists k :: 0 <= k < |ops| && ops[k].request == SeedSeats(e) && ReplyAt(ops, k).Created?
  }

  predicate Seeds(db: Db, op: Op, e: EventId) {
    op.request == SeedSeats(e) && Apply(db, op).reply.Created?
  }

  lemma SeededStep(front: seq<Op>, op: Op, e: EventId)
    ensures Seeded(front + [op], e) <==> Seeded(front, e) || Seeds(Run(EMPTY, front), op, e)
  {
    var ops := front + [op];
    assert ops[..|front|] == front;
    assert forall k :: 0 <= k < |front| ==> ops[..k] == front[..k];
    if Seeded(front, e) {
      var k :| 0 <= k < |front| && front[k].request == SeedSeats(e) && ReplyAt(front, k).Created?;
      assert ops[k].request == SeedSeats(e) && ReplyAt(ops, k).Created?;
    } else if Seeds(Run(EMPTY, front), op, e) {
      assert ops[|front|].request == SeedSeats(e) && ReplyAt(ops, |front|).Created?;
    }
  }

  lemma SeatsStep(db: Db, op: Op, e: EventId)
    ensures SeatsOf(Apply(db, op).db, e)
         == if Seeds(db, op, e) then SeatsOf(db, e) + SeatBlock(e, db.events[e].total) else SeatsOf(db, e)
  {
    if op.request.SeedSeats? && Apply(db, op).reply.Created? {
      var x := op.request.event;
      SeedCounts(db, Apply(db, op).db, x, SeatBlock(x, db.events[x].total), e);
    } else {
      assert Apply(db, op).db.seats.Keys == db.seats.Keys;
    }
  }

  /** The seats of an event are the block that was inserted for it, or none. */
  lemma {:induction false} SeatsOfEvent(ops: seq<Op>, e: EventId)
    ensures var db := Run(EMPTY, ops);
            if Seeded(ops, e) then e in db.events && SeatsOf(db, e) == SeatBlock(e, db.events[e].total)
            else SeatsOf(db, e) == {}
  {
    if ops != [] {
      var front, op := ops[..|ops| - 1], ops[|ops| - 1];
      var db := Run(EMPTY, front);
      SeatsOfEvent(front, e);
      assert ops == front + [op];
      SeededStep(front, op, e);
      SeatsStep(db, op, e);
      if e in db.events {
        TermsStay(db, op, e);
      }
    }
  }

  /**
   An event has the size and the price that the request that created it asked for, and exactly that many
   seats once they were inserted, none before.
   */
  lemma {:induction false} SeatsAsRequested(ops: seq<Op>, i: nat, e: EventId, total: nat, price: real)
    requires i < |ops| && CreatedBy(ops, i, e, total, price)
    ensures var db := Run(EMPTY, ops);
            && e in db.events && db.events[e].total == total && db.events[e].price == price
            && |SeatsOf(db, e)| == if Seeded(ops, e) then total else 0
  {
    CreatedKept(ops, i, e, total, price);
    SeatsOfEvent(ops, e);
    SeatBlockSize(e, total);
  }

  // ---------------------------------------------------------------- where a booking comes from

  /** The reservation that made the booking. */
  predicate Reserves(op: Op, id: BookingId, b: Booking) {
    && op.request.Reserve? && op.request.id == id && op.request.user == b.user
    && op.request.event == b.event && b.seat == SeatId(b.event, op.request.number)
    && op.request.until <= b.expiresAt
  }

  lemma NewBookingTerms(db: Db, op: Op, id: BookingId)
    requires id !in db.bookings && id in Apply(db, op).db.bookings
    ensures var db' := Apply(db, op).db;
            var b := db'.bookings[id];
            Reserves(op, id, b) && b.event in db'.events && b.amount == db'.events[b.event].price
  {
  }

  lemma {:induction false} ReservedTerms(ops: seq<Op>, id: BookingId)
    requires id in Run(EMPTY, ops).bookings
    ensures var db := Run(EMPTY, ops);
            var b := db.bookings[id];
            && (exists op <- ops :: Reserves(op, id, b))
            && b.event in db.events && b.amount == db.events[b.event].price
  {
    var front, op := ops[..|ops| - 1], ops[|ops| - 1];
    var db := Run(EMPTY, front);
    assert ops == front + [op];
    if id in db.bookings {
      ReservedTerms(front, id);
      StepEvolves(db, op, id);
      TermsStay(db, op, db.bookings[id].event);
      var o :| o in front && Reserves(o, id, db.bookings[id]);
      assert o in ops && Reserves(o, id, Run(EMPTY, ops).bookings[id]);
    } else {
      NewBookingTerms(db, op, id);
      assert op in ops && Reserves(op, id, Run(EMPTY, ops).bookings[id]);
    }
  }

  /**
   Every booking goes back to a reservation of its user for its seat, and costs the price that the
   transaction that created its event asked for.
   */
  lemma {:induction false} BookingTerms(ops: seq<Op>, id: BookingId) returns (i: nat, total: nat)
    requires id in Run(EMPTY, ops).bookings
    ensures var b := Run(EMPTY, ops).bookings[id];
            && (exists op <- ops :: Reserves(op, id, b))
            && i < |ops| && CreatedBy(ops, i, b.event, total, b.amount)
  {
    ReservedTerms(ops, id);
    var db := Run(EMPTY, ops);
    i := EventTerms(ops, db.bookings[id].event);
    total := db.events[db.bookings[id].event].total;
  }

  // ---------------------------------------------------------------- deadlines

  predicate Completes(op: Op, id: BookingId, b: Booking) {
    && op.request == Complete(id) && b.purchasedAt == Some(op.clock.start)
    && op.clock.start < b.expiresAt && op.clock.first <= b.expiresAt
  }

  predicate Expires(op: Op, id: BookingId, b: Booking) {
    op.request == Expire(id) && b.expiresAt <= op.clock.start && b.expiresAt <= op.clock.first
  }

  predicate ReservedAt(ops: seq<Op>, i: nat, id: BookingId)
    requires i <= |ops|
  {
    id in Run(EMPTY, ops[..i]).bookings && Run(EMPTY, ops[..i]).bookings[id].status.Reserved?
  }

  /** The `i`-th transaction found the booking reserved, completed it and replied so. */
  predicate PurchasedBy(ops: seq<Op>, i: nat, id: BookingId, b: Booking)
    requires i < |ops|
  {
    && ReservedAt(ops, i, id) && Completes(ops[i], id, b)
    && ReplyAt(ops, i).Done? && ReplyAt(ops, i).booking.status.Purchased? && Evolves(ReplyAt(ops, i).booking, b)
  }

  /** The `i`-th transaction found the booking reserved, expired it and replied so. */
  predicate ExpiredBy(ops: seq<Op>, i: nat, id: BookingId, b: Booking)
    requires i < |ops|
  {
    ReservedAt(ops, i, id) && Expires(ops[i], id, b) && ReplyAt(ops, i) == Done(b)
  }

  /** A purchase or an expiry in the tables goes back to the transaction of the run that made it. */
  ghost predicate Justified(ops: seq<Op>, id: BookingId, b: Booking) {
    && (b.status.Purchased? ==> exists i :: 0 <= i < |ops| && PurchasedBy(ops, i, id, b))
    && (b.status.Expired? ==> exists i :: 0 <= i < |ops| && ExpiredBy(ops, i, id, b))
  }

  /** What one transaction may do to a booking's status, and what its clock then showed. */
  predicate Changes(op: Op, id: BookingId, b: Booking, c: Booking) {
    || b == c
    || (b.status == c.status == BookingStatus.Reserved)
    || (b.status == c.status == Purchased && c.purchasedAt == b.purchasedAt && c.expiresAt == b.expiresAt)
    || (b.status.Reserved? && c.status.Purchased? && Completes(op, id, c))
    || (b.status.Reserved? && c.status.Expired? && Expires(op, id, c))
    || (b.status.Reserved? && c.status.Cancelled? && op.request == Cancel(id))
    || (b.status.Purchased? && c.status.Cancelled? && op.request == Revert(id))
  }

  lemma StatusChange(db: Db, op: Op, id: BookingId)
    requires id in db.bookings
    ensures id in Apply(db, op).db.bookings && Changes(op, id, db.bookings[id], Apply(db, op).db.bookings[id])
    ensures var b, c := db.bookings[id], Apply(db, op).db.bookings[id];
            b.status.Reserved? && (c.status.Purchased? || c.status.Expired?) ==> Apply(db, op).reply == Done(c)
  {
    match op.request
    case Reserve(_, _, _, _, _) =>
    case _ =>
  }

  /** What an earlier transaction did is still told by a longer run. */
  lemma StillBy(front: seq<Op>, op: Op, i: nat, id: BookingId, b: Booking, c: Booking)
    requires i < |front| && Evolves(b, c)
    ensures b.status.Purchased? && c.status.Purchased? && PurchasedBy(front, i, id, b) ==>
              PurchasedBy(front + [op], i, id, c)
    ensures b.status.Expired? && ExpiredBy(front, i, id, b) ==> ExpiredBy(front + [op], i, id, c)
  {
    assert (front + [op])[..i] == front[..i];
  }

  lemma JustifiedStep(front: seq<Op>, op: Op, id: BookingId)
    requires id in Run(EMPTY, front).bookings && Justified(front, id, Run(EMPTY, front).bookings[id])
    ensures var db := Apply(Run(EMPTY, front), op).db; id in db.bookings && Justified(front + [op], id, db.bookings[id])
  {
    var db, ops := Run(EMPTY, front), front + [op];
    StatusChange(db, op, id);
    StepEvolves(db, op, id);
    var b, c := db.bookings[id], Apply(db, op).db.bookings[id];
    assert ops[..|front|] == front;
    if c.status.Purchased? {
      if b.status.Purchased? {
        var i :| 0 <= i < |front| && PurchasedBy(front, i, id, b);
        StillBy(front, op, i, id, b, c);
      } else {
        assert PurchasedBy(ops, |front|, id, c);
      }
    } else if c.status.Expired? {
      if b.status.Expired? {
        var i :| 0 <= i < |front| && ExpiredBy(front, i, id, b);
        StillBy(front, op, i, id, b, c);
      } else {
        assert ExpiredBy(ops, |front|, id, c);
      }
    }
  }

  lemma NewBookingReserved(db: Db, op: Op, id: BookingId)
    requires id !in db.bookings && id in Apply(db, op).db.bookings
    ensures Apply(db, op).db.bookings[id].status.Reserved? && op.request.Reserve? && op.request.id == id
  {
  }

  /**
   Purchased bookings were completed by a transaction of the run that started before the deadline and
   reported success; expired bookings were released by one that started at or after it.
   */
  lemma {:induction false} DeadlinesRespected(ops: seq<Op>, id: BookingId)
    requires id in Run(EMPTY, ops).bookings
    ensures Justified(ops, id, Run(EMPTY, ops).bookings[id])
  {
    if ops != [] {
      var front, op := ops[..|ops| - 1], ops[|ops| - 1];
      var db := Run(EMPTY, front);
      if id in db.bookings {
        DeadlinesRespected(front, id);
        JustifiedStep(front, op, id);
        assert ops == front + [op];
      } else {
        NewBookingReserved(db, op, id);
      }
    }
  }

  /**
   A sweep that saw a booking overdue at its query time, and later releases it with a transaction
   begun after that query, leaves it no longer reserved, unless its deadline was moved in between;
   this holds whatever else commits before, between and after.
   */
  lemma SweepCatches(ops: seq<Op>, i: nat, j: nat, id: BookingId, query: Time)
    requires i <= j < |ops| && id in Run(EMPTY, ops[..i]).bookings
    requires Run(EMPTY, ops[..i]).bookings[id].status.Reserved? && Run(EMPTY, ops[..i]).bookings[id].expiresAt < query
    requires ops[j].request == Expire(id) && ops[j].clock.Monotone() && query <= ops[j].clock.start
    ensures id in Run(EMPTY, ops).bookings
    ensures !Run(EMPTY, ops).bookings[id].status.Reserved?
            || Run(EMPTY, ops).bookings[id].expiresAt > Run(EMPTY, ops[..i]).bookings[id].expiresAt
  {
    EvolvesBetween(ops, i, j, id);
    RunNext(ops, j);
    ExpireCatches(Run(EMPTY, ops[..j]), ops[j], id, Run(EMPTY, ops[..i]).bookings[id]);
    EvolvesBetween(ops, j + 1, |ops|, id);
    assert ops[..|ops|] == ops;
  }

  lemma ExpireCatches(db: Db, op: Op, id: BookingId, seen: Booking)
    requires id in db.bookings && Evolves(seen, db.bookings[id])
    requires op.request == Expire(id) && op.clock.Monotone() && seen.expiresAt < op.clock.start
    ensures id in Apply(db, op).db.bookings
    ensures !Apply(db, op).db.bookings[id].status.Reserved? || Apply(db, op).db.bookings[id].expiresAt > seen.expiresAt
  {
  }

  // ---------------------------------------------------------------- conservation

  datatype Kind = Reservation | Cancellation | Expiry | Reversal

  predicate IsKind(r: Request, kind: Kind) {
    match kind
    case Reservation => r.Reserve?
    case Cancellation => r.Cancel?
    case Expiry => r.Expire?
    case Reversal => r.Revert?
  }

  /** How many transactions of a kind succeeded for an event. */
  function Tally(ops: seq<Op>, e: EventId, kind: Kind): nat {
    if ops == [] then
      0
    else
      var front, op := ops[..|ops| - 1], ops[|ops| - 1];
      var reply := Apply(Run(EMPTY, front), op).reply;
      Tally(front, e, kind) + if IsKind(op.request, kind) && reply.Done? && reply.booking.event == e then 1 else 0
  }

  predicate GivesBack(r: Request) {
    r.Cancel? || r.Expire? || r.Revert?
  }

  /** How many times the seat of one booking was handed back. */
  function Returns(ops: seq<Op>, id: BookingId): nat {
    if ops == [] then
      0
    else
      var front, op := ops[..|ops| - 1], ops[|ops| - 1];
      var reply := Apply(Run(EMPTY, front), op).reply;
      Returns(front, id) + if GivesBack(op.request) && op.request.id == id && reply.Done? then 1 else 0
  }

  /** What one transaction adds to the counter of an existing event. */
  function Swing(op: Op, reply: Reply, e: EventId): int {
    if !reply.Done? || reply.booking.event != e then 0
    else if op.request.Reserve? then -1
    else if GivesBack(op.request) then 1
    else 0
  }

  lemma CounterStep(db: Db, op: Op, e: EventId)
    requires RowsLinked(db)
    ensures var r := Apply(db, op);
            if e in db.events then
              && e in r.db.events && r.db.events[e].total == db.events[e].total
              && r.db.events[e].available == db.events[e].available + Swing(op, r.reply, e)
            else
              && !(r.reply.Done? && r.reply.booking.event == e)
              && (e in r.db.events ==> r.db.events[e].available == r.db.events[e].total)
  {
    match op.request
    case Reserve(_, _, _, _, _) =>
    case Cancel(_) =>
    case Expire(_) =>
    case Revert(_) =>
    case Extend(_, _, _) =>
    case Complete(_) =>
    case SetIntent(_, _) =>
    case CreateEvent(_, _, _) =>
    case SeedSeats(_) =>
  }

  /** The counter is the total, less the reservations, plus every way a seat comes back. */
  lemma {:induction false} Conservation(ops: seq<Op>, e: EventId)
    ensures e in Run(EMPTY, ops).events ==>
              Run(EMPTY, ops).events[e].available ==
                Run(EMPTY, ops).events[e].total - Tally(ops, e, Reservation)
                  + Tally(ops, e, Cancellation) + Tally(ops, e, Expiry) + Tally(ops, e, Reversal)
    ensures e !in Run(EMPTY, ops).events ==> forall kind :: Tally(ops, e, kind) == 0
  {
    if ops != [] {
      var front, op := ops[..|ops| - 1], ops[|ops| - 1];
      Conservation(front, e);
      ReachableInv(front);
      CounterStep(Run(EMPTY, front), op, e);
    }
  }

  lemma ReturnStep(db: Db, op: Op, id: BookingId)
    ensures var r := Apply(db, op);
            var dead := (d: Db) => id in d.bookings && !d.bookings[id].Live();
            (GivesBack(op.request) && op.request.id == id && r.reply.Done?) <==> (!dead(db) && dead(r.db))
    ensures id in db.bookings && !db.bookings[id].Live() ==> Apply(db, op).db.bookings[id] == db.bookings[id]
  {
    match op.request
    case Reserve(_, _, _, _, _) =>
    case _ =>
  }

  /**
   However often the queue worker, the sweep, the user and the payment path try, the seat of a
   booking is handed back exactly once, when the booking becomes terminal.
   */
  lemma {:induction false} ReturnedExactlyOnce(ops: seq<Op>, id: BookingId)
    ensures var db := Run(EMPTY, ops);
            Returns(ops, id) == if id in db.bookings && !db.bookings[id].Live() then 1 else 0
  {
    if ops != [] {
      var front, op := ops[..|ops| - 1], ops[|ops| - 1];
      ReturnedExactlyOnce(front, id);
      ReturnStep(Run(EMPTY, front), op, id);
      if id in Run(EMPTY, front).bookings {
        StepEvolves(Run(EMPTY, front), op, id);
      }
    }
  }
}
