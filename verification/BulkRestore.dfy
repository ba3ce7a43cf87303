/**
 A failed BulkReserve call leaves no trace: whatever other actors do meanwhile, to other seats of the
 same event as to anything else, the tables end as if only they had run.
 */
module BulkRestore {
  import opened Prelude
  import opened Ledger
  import opened LedgerRuns
  import opened BulkReserve

  /** The seats the call asks for. */
  function Requested(s: State): set<SeatId> {
    set number | number in s.seats :: SeatId(s.event, number)
  }

  function MineOf(s: State): set<BookingId> {
    set id | id in BookedIds(s.outcomes)
  }

  /** A transaction of another actor that touches neither this call's bookings nor the seats it asks for. */
  predicate KeepsOff(s: State, op: Op) {
    match op.request
    case CreateEvent(_, _, _) => true
    case SeedSeats(_) => true
    case Reserve(_, e, number, _, id) => SeatId(e, number) !in Requested(s) && id !in MineOf(s)
    case _ => op.request.id in s.db.bookings ==> s.db.bookings[op.request.id].seat !in Requested(s)
  }

  predicate KeptOff(s: State, actions: seq<Action>) {
    actions == [] ||
    var front, last := actions[..|actions| - 1], actions[|actions| - 1];
    KeptOff(s, front) && (last.Others? ==> KeepsOff(RunFrom(s, front), last.op))
  }

  // ---------------------------------------------------------------- the tables with and without the call

  /** The seats of the bookings `live`. */
  function Taken(db: Db, live: set<BookingId>): set<SeatId>
    requires live <= db.bookings.Keys
  {
    set id | id in live :: db.bookings[id].seat
  }

  lemma TakenSame(db: Db, db': Db, live: set<BookingId>)
    requires live <= db.bookings.Keys && db'.bookings == db.bookings
    ensures Taken(db', live) == Taken(db, live)
  {
  }

  /** Apart from the call's own, the bookings are the same. */
  predicate SameBookings(db: Db, alone: Db, mine: set<BookingId>) {
    && mine <= db.bookings.Keys && alone.bookings.Keys == db.bookings.Keys - mine
    && forall id :: id in alone.bookings ==> alone.bookings[id] == db.bookings[id]
  }

  /** Apart from those the call holds, which were free, the seats are the same. */
  predicate SameSeats(db: Db, alone: Db, taken: set<SeatId>) {
    && db.seats.Keys == alone.seats.Keys && taken <= db.seats.Keys
    && forall s :: s in db.seats ==> alone.seats[s] == if s in taken then FREE else db.seats[s]
  }

  /** Apart from the counter of the call's event, which misses the seats it holds, the events are the same. */
  predicate SameEvents(db: Db, alone: Db, event: EventId, held: nat) {
    && db.events.Keys == alone.events.Keys
    && forall e :: e in db.events ==>
         alone.events[e] == db.events[e].(available := db.events[e].available + if e == event then held else 0)
  }

  /** `db` is `alone` plus a call on `event` that made the bookings `mine` and still holds `live`. */
  predicate Lent(db: Db, alone: Db, event: EventId, live: set<BookingId>, mine: set<BookingId>) {
    && live <= mine && SameBookings(db, alone, mine)
    && (forall id :: id in live ==> db.bookings[id].status.Reserved? && db.bookings[id].event == event)
    && SameSeats(db, alone, Taken(db, live)) && SameEvents(db, alone, event, |live|)
  }

  lemma BothWriteBooking(db: Db, alone: Db, event: EventId, live: set<BookingId>, mine: set<BookingId>,
                         id: BookingId, b: Booking)
    requires Lent(db, alone, event, live, mine) && id !in mine
    ensures Lent(WriteBooking(db, id, b), WriteBooking(alone, id, b), event, live, mine)
    ensures Taken(WriteBooking(db, id, b), live) == Taken(db, live)
  {
    assert Taken(WriteBooking(db, id, b), live) == Taken(db, live);
  }

  lemma BothWriteSeat(db: Db, alone: Db, event: EventId, live: set<BookingId>, mine: set<BookingId>,
                      s: SeatId, row: Seat)
    requires Lent(db, alone, event, live, mine) && s !in Taken(db, live)
    ensures Lent(WriteSeat(db, s, row), WriteSeat(alone, s, row), event, live, mine)
  {
    assert Taken(WriteSeat(db, s, row), live) == Taken(db, live);
  }

  lemma BothAddAvailable(db: Db, alone: Db, event: EventId, live: set<BookingId>, mine: set<BookingId>,
                         e: EventId, delta: int)
    requires Lent(db, alone, event, live, mine)
    ensures Lent(AddAvailable(db, e, delta), AddAvailable(alone, e, delta), event, live, mine)
  {
    assert Taken(AddAvailable(db, e, delta), live) == Taken(db, live);
  }

  // ---------------------------------------------------------------- the other actors

  /** Both transactions did the same. */
  predicate SameReply(a: Reply, b: Reply) {
    a == b || (a.Failed? && b.Failed?)
  }

  predicate StaysLent(db: Db, alone: Db, op: Op, event: EventId, live: set<BookingId>, mine: set<BookingId>) {
    && Lent(Apply(db, op).db, Apply(alone, op).db, event, live, mine)
    && SameReply(Apply(db, op).reply, Apply(alone, op).reply)
  }

  /** An available seat is free, and its event has a counter above zero. */
  lemma AvailableSeat(db: Db, s: SeatId)
    requires Inv(db) && s in db.seats && db.seats[s].status.Available?
    ensures db.seats[s] == FREE && s.event in db.events && db.events[s.event].available > 0
  {
    assert CounterExact(db, s.event);
    assert s in SeatsOf(db, s.event) && s in AvailableSeats(db, s.event);
  }

  /** What a reservation of a seat that is free does. */
  function Reserved(db: Db, s: SeatId, id: BookingId, b: Booking, until: Time): Db {
    WriteBooking(WriteSeat(AddAvailable(db, s.event, -1), s, Seat(SeatStatus.Reserved, Some(until))), id, b)
  }

  lemma ReserveForm(db: Db, c: Clock, user: UserId, e: EventId, number: string, until: Time, id: BookingId)
    requires Inv(db)
    ensures var s, r := SeatId(e, number), ReserveTx(db, c, user, e, number, until, id);
            if s in db.seats && db.seats[s].status.Available? && id !in db.bookings then
              && e in db.events && db.seats[s] == FREE
              && var b := Booking(user, e, s, BookingStatus.Reserved, db.events[e].price, until, None, None);
                 r == Effect(Reserved(db, s, id, b, until), Done(b))
            else
              r.db == db && r.reply.Failed?
  {
    var s := SeatId(e, number);
    if s in db.seats && db.seats[s].status.Available? {
      AvailableSeat(db, s);
    }
  }

  lemma BothReserved(db: Db, alone: Db, event: EventId, live: set<BookingId>, mine: set<BookingId>,
                     s: SeatId, id: BookingId, b: Booking, until: Time)
    requires Lent(db, alone, event, live, mine) && s !in Taken(db, live) && id !in mine
    ensures Lent(Reserved(db, s, id, b, until), Reserved(alone, s, id, b, until), event, live, mine)
  {
    var row := Seat(SeatStatus.Reserved, Some(until));
    var db1, alone1 := AddAvailable(db, s.event, -1), AddAvailable(alone, s.event, -1);
    BothAddAvailable(db, alone, event, live, mine, s.event, -1);
    assert Taken(db1, live) == Taken(db, live);
    BothWriteSeat(db1, alone1, event, live, mine, s, row);
    BothWriteBooking(WriteSeat(db1, s, row), WriteSeat(alone1, s, row), event, live, mine, id, b);
  }

  lemma OthersReserve(db: Db, alone: Db, op: Op, event: EventId, live: set<BookingId>, mine: set<BookingId>)
    requires Inv(db) && Inv(alone) && Lent(db, alone, event, live, mine) && op.request.Reserve?
    requires SeatId(op.request.event, op.request.number) !in Taken(db, live) && op.request.id !in mine
    ensures StaysLent(db, alone, op, event, live, mine)
  {
    var Reserve(user, e, number, until, id) := op.request;
    var s := SeatId(e, number);
    ReserveForm(db, op.clock, user, e, number, until, id);
    ReserveForm(alone, op.clock, user, e, number, until, id);
    if s in db.seats && db.seats[s].status.Available? && id !in db.bookings {
      var b := Booking(user, e, s, BookingStatus.Reserved, db.events[e].price, until, None, None);
      BothReserved(db, alone, event, live, mine, s, id, b, until);
    }
  }

  lemma OthersCreate(db: Db, alone: Db, op: Op, event: EventId, live: set<BookingId>, mine: set<BookingId>)
    requires Lent(db, alone, event, live, mine) && op.request.CreateEvent?
    requires op.request.event == event ==> live == {} || event in db.events
    ensures StaysLent(db, alone, op, event, live, mine)
  {
    TakenSame(db, Apply(db, op).db, live);
  }

  lemma SeedRows(db: Db, alone: Db, e: EventId, taken: set<SeatId>)
    requires db.events.Keys == alone.events.Keys && SameSeats(db, alone, taken)
    requires e in db.events ==> db.events[e].total == alone.events[e].total
    ensures SameSeats(SeedSeatsTx(db, e).db, SeedSeatsTx(alone, e).db, taken)
    ensures SeedSeatsTx(db, e).reply == SeedSeatsTx(alone, e).reply
  {
  }

  lemma OthersSeed(db: Db, alone: Db, op: Op, event: EventId, live: set<BookingId>, mine: set<BookingId>)
    requires Lent(db, alone, event, live, mine) && op.request.SeedSeats?
    ensures StaysLent(db, alone, op, event, live, mine)
  {
    SeedRows(db, alone, op.request.event, Taken(db, live));
    TakenSame(db, Apply(db, op).db, live);
  }

  /** The booking and the seat the transaction works on are the same in both tables. */
  predicate SameRows(db: Db, alone: Db, id: BookingId) {
    && (id in db.bookings <==> id in alone.bookings)
    && (id in db.bookings ==> db.bookings[id] == alone.bookings[id])
    && db.events.Keys == alone.events.Keys && db.seats.Keys == alone.seats.Keys
    && (id in db.bookings && db.bookings[id].seat in db.seats ==>
          db.seats[db.bookings[id].seat] == alone.seats[db.bookings[id].seat])
  }

  lemma OthersRows(db: Db, alone: Db, id: BookingId, event: EventId, live: set<BookingId>, mine: set<BookingId>)
    requires Lent(db, alone, event, live, mine) && id !in mine
    requires id in db.bookings ==> db.bookings[id].seat !in Taken(db, live)
    ensures SameRows(db, alone, id)
  {
  }

  lemma OthersIntent(db: Db, alone: Db, op: Op, event: EventId, live: set<BookingId>, mine: set<BookingId>)
    requires Lent(db, alone, event, live, mine) && op.request.SetIntent? && SameRows(db, alone, op.request.id)
    requires op.request.id !in mine
    ensures StaysLent(db, alone, op, event, live, mine)
  {
    var r := Apply(db, op);
    if r.reply.Done? {
      BothWriteBooking(db, alone, event, live, mine, op.request.id, r.reply.booking);
    }
  }

  /** A change of a booking and of its seat. */
  lemma BothWriteRows(db: Db, alone: Db, event: EventId, live: set<BookingId>, mine: set<BookingId>,
                      id: BookingId, b: Booking, row: Seat)
    requires Lent(db, alone, event, live, mine) && id !in mine && b.seat !in Taken(db, live)
    ensures Lent(WriteSeat(WriteBooking(db, id, b), b.seat, row), WriteSeat(WriteBooking(alone, id, b), b.seat, row),
                 event, live, mine)
  {
    BothWriteBooking(db, alone, event, live, mine, id, b);
    BothWriteSeat(WriteBooking(db, id, b), WriteBooking(alone, id, b), event, live, mine, b.seat, row);
  }

  lemma OthersComplete(db: Db, alone: Db, op: Op, event: EventId, live: set<BookingId>, mine: set<BookingId>)
    requires Lent(db, alone, event, live, mine) && op.request.Complete? && SameRows(db, alone, op.request.id)
    requires op.request.id !in mine
    requires op.request.id in db.bookings ==> db.bookings[op.request.id].seat !in Taken(db, live)
    ensures StaysLent(db, alone, op, event, live, mine)
  {
    var r := Apply(db, op);
    if r.reply.Done? && r.db != db {
      BothWriteRows(db, alone, event, live, mine, op.request.id, r.reply.booking, Seat(Sold, None));
    }
  }

  lemma OthersExtend(db: Db, alone: Db, op: Op, event: EventId, live: set<BookingId>, mine: set<BookingId>)
    requires Lent(db, alone, event, live, mine) && op.request.Extend? && SameRows(db, alone, op.request.id)
    requires op.request.id !in mine
    requires op.request.id in db.bookings ==> db.bookings[op.request.id].seat !in Taken(db, live)
    ensures StaysLent(db, alone, op, event, live, mine)
  {
    var r := Apply(db, op);
    if r.reply.Done? {
      var b := r.reply.booking;
      var row := db.seats[b.seat].(reservedUntil := Some(b.expiresAt));
      BothWriteRows(db, alone, event, live, mine, op.request.id, b, row);
    }
  }

  /** What ending a booking and freeing its seat does. */
  function Freed(db: Db, id: BookingId, b: Booking): Db {
    AddAvailable(WriteSeat(WriteBooking(db, id, b), b.seat, FREE), b.event, 1)
  }

  lemma BothFreed(db: Db, alone: Db, event: EventId, live: set<BookingId>, mine: set<BookingId>,
                  id: BookingId, b: Booking)
    requires Lent(db, alone, event, live, mine) && id !in mine && b.seat !in Taken(db, live)
    ensures Lent(Freed(db, id, b), Freed(alone, id, b), event, live, mine)
  {
    BothWriteRows(db, alone, event, live, mine, id, b, FREE);
    var db1, alone1 := WriteBooking(db, id, b), WriteBooking(alone, id, b);
    BothAddAvailable(WriteSeat(db1, b.seat, FREE), WriteSeat(alone1, b.seat, FREE), event, live, mine, b.event, 1);
  }

  lemma OthersRelease(db: Db, alone: Db, op: Op, event: EventId, live: set<BookingId>, mine: set<BookingId>)
    requires Lent(db, alone, event, live, mine) && (op.request.Cancel? || op.request.Expire?)
    requires SameRows(db, alone, op.request.id) && op.request.id !in mine
    requires op.request.id in db.bookings ==> db.bookings[op.request.id].seat !in Taken(db, live)
    ensures StaysLent(db, alone, op, event, live, mine)
  {
    var r := Apply(db, op);
    if r.reply.Done? {
      BothFreed(db, alone, event, live, mine, op.request.id, r.reply.booking);
    }
  }

  lemma OthersRevert(db: Db, alone: Db, op: Op, event: EventId, live: set<BookingId>, mine: set<BookingId>)
    requires Lent(db, alone, event, live, mine) && op.request.Revert?
    requires SameRows(db, alone, op.request.id) && op.request.id !in mine
    requires op.request.id in db.bookings ==> db.bookings[op.request.id].seat !in Taken(db, live)
    ensures StaysLent(db, alone, op, event, live, mine)
  {
    var id, r := op.request.id, Apply(db, op);
    if r.reply.Done? {
      var b := r.reply.booking;
      if b.seat in db.seats && db.seats[b.seat].status.Sold? {
        BothFreed(db, alone, event, live, mine, id, b);
      } else {
        BothWriteBooking(db, alone, event, live, mine, id, b);
        BothAddAvailable(WriteBooking(db, id, b), WriteBooking(alone, id, b), event, live, mine, b.event, 1);
      }
    }
  }

  /** The seats the call may hold are among those it asked for, and so out of the others' way. */
  predicate OutOfTheWay(db: Db, op: Op, live: set<BookingId>, mine: set<BookingId>)
    requires live <= db.bookings.Keys
  {
    match op.request
    case CreateEvent(_, _, _) => true
    case SeedSeats(_) => true
    case Reserve(_, e, number, _, id) => SeatId(e, number) !in Taken(db, live) && id !in mine
    case _ =>
      && op.request.id !in mine
      && (op.request.id in db.bookings ==> db.bookings[op.request.id].seat !in Taken(db, live))
  }

  /** A live booking has an event. */
  lemma LiveEvent(db: Db, alone: Db, event: EventId, live: set<BookingId>, mine: set<BookingId>)
    requires Inv(db) && Lent(db, alone, event, live, mine)
    ensures live == {} || event in db.events
  {
    if live != {} {
      var id :| id in live;
      assert db.bookings[id].seat in db.seats;
    }
  }

  /** Whatever it is, another actor's transaction does the same with the call as without it. */
  lemma OthersStayLent(db: Db, alone: Db, op: Op, event: EventId, live: set<BookingId>, mine: set<BookingId>)
    requires Inv(db) && Inv(alone) && Lent(db, alone, event, live, mine) && OutOfTheWay(db, op, live, mine)
    ensures StaysLent(db, alone, op, event, live, mine)
  {
    if op.request.CreateEvent? {
      LiveEvent(db, alone, event, live, mine);
      OthersCreate(db, alone, op, event, live, mine);
    } else if op.request.SeedSeats? {
      OthersSeed(db, alone, op, event, live, mine);
    } else if op.request.Reserve? {
      OthersReserve(db, alone, op, event, live, mine);
    } else {
      OthersRows(db, alone, op.request.id, event, live, mine);
      match op.request {
        case SetIntent(_, _) => OthersIntent(db, alone, op, event, live, mine);
        case Extend(_, _, _) => OthersExtend(db, alone, op, event, live, mine);
        case Complete(_) => OthersComplete(db, alone, op, event, live, mine);
        case Revert(_) => OthersRevert(db, alone, op, event, live, mine);
        case Expire(_) => OthersRelease(db, alone, op, event, live, mine);
        case Cancel(_) => OthersRelease(db, alone, op, event, live, mine);
      }
    }
  }

  // ---------------------------------------------------------------- the call itself

  lemma FreeNotTaken(db: Db, alone: Db, event: EventId, live: set<BookingId>, mine: set<BookingId>, s: SeatId)
    requires RowsLinked(db) && Lent(db, alone, event, live, mine) && s in db.seats && db.seats[s].status.Available?
    ensures s !in Taken(db, live)
  {
    forall i | i in live ensures db.bookings[i].seat != s {
      assert Agree(db.bookings[i], db.seats[db.bookings[i].seat]);
    }
  }

  lemma TakenMore(db: Db, r: Db, live: set<BookingId>, id: BookingId, x: SeatId)
    requires live <= db.bookings.Keys && id !in live && id in r.bookings
    requires forall i :: i in live ==> i in r.bookings && r.bookings[i] == db.bookings[i]
    ensures x in Taken(r, live + {id}) <==> x in Taken(db, live) || x == r.bookings[id].seat
  {
    if x == r.bookings[id].seat {
      assert id in live + {id};
    }
    if x in Taken(db, live) {
      var i :| i in live && db.bookings[i].seat == x;
      assert i in live + {id} && r.bookings[i].seat == x;
    }
  }

  lemma TakenWithOne(db: Db, r: Db, live: set<BookingId>, id: BookingId)
    requires live <= db.bookings.Keys && id !in live && id in r.bookings
    requires forall i :: i in live ==> i in r.bookings && r.bookings[i] == db.bookings[i]
    ensures Taken(r, live + {id}) == Taken(db, live) + {r.bookings[id].seat}
  {
    forall x ensures x in Taken(r, live + {id}) <==> x in Taken(db, live) + {r.bookings[id].seat} {
      TakenMore(db, r, live, id, x);
    }
  }

  lemma TakeRows(db: Db, alone: Db, s: SeatId, id: BookingId, b: Booking, until: Time, taken: set<SeatId>, held: nat,
                 mine: set<BookingId>)
    requires SameBookings(db, alone, mine) && id !in db.bookings
    requires SameSeats(db, alone, taken) && s !in taken && s in db.seats && db.seats[s] == FREE
    requires SameEvents(db, alone, s.event, held) && s.event in db.events
    ensures var r := Reserved(db, s, id, b, until);
            && SameBookings(r, alone, mine + {id})
            && SameSeats(r, alone, taken + {s})
            && SameEvents(r, alone, s.event, held + 1)
  {
  }

  lemma TakeOne(db: Db, alone: Db, event: EventId, live: set<BookingId>, mine: set<BookingId>,
                s: SeatId, id: BookingId, b: Booking, until: Time)
    requires Lent(db, alone, event, live, mine) && s !in Taken(db, live) && id !in db.bookings
    requires s in db.seats && db.seats[s] == FREE && s.event == event && event in db.events
    requires b.status.Reserved? && b.event == event && b.seat == s
    ensures Lent(Reserved(db, s, id, b, until), alone, event, live + {id}, mine + {id})
  {
    var r := Reserved(db, s, id, b, until);
    TakeRows(db, alone, s, id, b, until, Taken(db, live), |live|, mine);
    TakenWithOne(db, r, live, id);
    assert |live + {id}| == |live| + 1;
  }

  lemma OwnReserve(db: Db, alone: Db, c: Clock, user: UserId, event: EventId, number: string, until: Time,
                   id: BookingId, live: set<BookingId>, mine: set<BookingId>)
    requires Inv(db) && Lent(db, alone, event, live, mine)
    requires ReserveTx(db, c, user, event, number, until, id).reply.Done?
    ensures id !in db.bookings
    ensures Lent(ReserveTx(db, c, user, event, number, until, id).db, alone, event, live + {id}, mine + {id})
  {
    var s, r := SeatId(event, number), ReserveTx(db, c, user, event, number, until, id);
    ReserveForm(db, c, user, event, number, until, id);
    FreeNotTaken(db, alone, event, live, mine, s);
    TakeOne(db, alone, event, live, mine, s, id, r.reply.booking, until);
  }

  lemma TakenLess(db: Db, r: Db, live: set<BookingId>, id: BookingId, x: SeatId)
    requires live <= db.bookings.Keys && id in live
    requires forall i :: i in live && i != id ==> i in r.bookings && r.bookings[i] == db.bookings[i]
    requires forall i :: i in live && i != id ==> db.bookings[i].seat != db.bookings[id].seat
    ensures x in Taken(r, live - {id}) <==> x in Taken(db, live) && x != db.bookings[id].seat
  {
    if x in Taken(db, live) && x != db.bookings[id].seat {
      var i :| i in live && db.bookings[i].seat == x;
      assert i in live - {id} && r.bookings[i].seat == x;
    }
  }

  lemma TakenWithout(db: Db, r: Db, live: set<BookingId>, id: BookingId)
    requires live <= db.bookings.Keys && id in live
    requires forall i :: i in live && i != id ==> i in r.bookings && r.bookings[i] == db.bookings[i]
    requires forall i :: i in live && i != id ==> db.bookings[i].seat != db.bookings[id].seat
    ensures Taken(r, live - {id}) == Taken(db, live) - {db.bookings[id].seat}
  {
    forall x ensures x in Taken(r, live - {id}) <==> x in Taken(db, live) - {db.bookings[id].seat} {
      TakenLess(db, r, live, id, x);
    }
  }

  lemma GiveRows(db: Db, alone: Db, id: BookingId, b: Booking, taken: set<SeatId>, held: nat, mine: set<BookingId>)
    requires SameBookings(db, alone, mine) && id in mine
    requires SameSeats(db, alone, taken) && b.seat in taken
    requires SameEvents(db, alone, b.event, held) && held > 0 && b.event in db.events
    ensures var r := Freed(db, id, b);
            && SameBookings(r, alone, mine)
            && SameSeats(r, alone, taken - {b.seat})
            && SameEvents(r, alone, b.event, held - 1)
  {
  }

  lemma GiveOne(db: Db, alone: Db, event: EventId, live: set<BookingId>, mine: set<BookingId>,
                id: BookingId, b: Booking)
    requires Lent(db, alone, event, live, mine) && id in live && event in db.events
    requires b.seat == db.bookings[id].seat && b.event == event
    requires forall i :: i in live && i != id ==> db.bookings[i].seat != b.seat
    ensures Lent(Freed(db, id, b), alone, event, live - {id}, mine)
  {
    assert |live - {id}| == |live| - 1;
    GiveRows(db, alone, id, b, Taken(db, live), |live|, mine);
    TakenWithout(db, Freed(db, id, b), live, id);
  }

  lemma OwnSeat(db: Db, alone: Db, event: EventId, id: BookingId, live: set<BookingId>, mine: set<BookingId>)
    requires Inv(db) && Lent(db, alone, event, live, mine) && id in live
    ensures db.bookings[id].seat in db.seats && event in db.events
    ensures forall i :: i in live && i != id ==> db.bookings[i].seat != db.bookings[id].seat
  {
    assert Agree(db.bookings[id], db.seats[db.bookings[id].seat]);
    forall i | i in live && i != id ensures db.bookings[i].seat != db.bookings[id].seat {
      assert db.bookings[i].Live() && db.bookings[id].Live();
    }
  }

  lemma OwnCancel(db: Db, alone: Db, c: Clock, event: EventId, id: BookingId, live: set<BookingId>,
                  mine: set<BookingId>)
    requires Inv(db) && Lent(db, alone, event, live, mine) && id in live
    ensures Lent(ReleaseTx(db, c, id, Cancelled, false).db, alone, event, live - {id}, mine)
  {
    OwnSeat(db, alone, event, id, live, mine);
    GiveOne(db, alone, event, live, mine, id, db.bookings[id].(status := Cancelled));
  }

  // ---------------------------------------------------------------- a whole call

  /** The bookings the call still holds: while it undoes them, those it has not reached or could not cancel. */
  function Held(s: State): set<BookingId> {
    match s.phase
    case Reserving => MineOf(s)
    case Undoing(done) => From(BookedIds(s.outcomes), done) + s.leftover
    case Returned(response) => if response.BulkFailed? then s.leftover else MineOf(s)
  }

  /** What could not be cancelled was reached. */
  predicate LeftoverReached(s: State) {
    match s.phase
    case Reserving => s.leftover == {}
    case Undoing(done) => s.leftover !! From(BookedIds(s.outcomes), done)
    case Returned(_) => true
  }

  function From(ids: seq<BookingId>, k: nat): set<BookingId> {
    set i | k <= i < |ids| :: ids[i]
  }

  lemma FromAll(ids: seq<BookingId>)
    ensures From(ids, 0) == set id | id in ids
  {
  }

  lemma FromNext(ids: seq<BookingId>, k: nat)
    requires Distinct(ids) && k < |ids|
    ensures From(ids, k + 1) == From(ids, k) - {ids[k]} && ids[k] in From(ids, k)
  {
  }

  lemma MineSnoc(s: State, j: nat, o: Outcome)
    requires j < |s.chunks|
    ensures MineOf(Tried(s, j, o)) == if o.Booked? then MineOf(s) + {o.id} else MineOf(s)
  {
    BookedSnoc(s.outcomes, o);
  }

  ghost predicate SeatsRequested(s: State) {
    forall id :: id in MineOf(s) ==> id in s.db.bookings && s.db.bookings[id].seat in Requested(s)
  }

  /** The call runs over `alone`, the tables as they would be without it. */
  ghost predicate Over(s: State, alone: Db) {
    && Inv(s.db) && Inv(alone)
    && Lent(s.db, alone, s.event, Held(s), MineOf(s))
    && Distinct(BookedIds(s.outcomes)) && SeatsRequested(s) && LeftoverReached(s)
  }

  lemma Assembled(s: State, db: Db, alone: Db, event: EventId, live: set<BookingId>, mine: set<BookingId>)
    requires Inv(db) && Inv(alone) && Lent(db, alone, event, live, mine)
    requires s.db == db && s.event == event && Held(s) == live && MineOf(s) == mine
    requires Distinct(BookedIds(s.outcomes)) && SeatsRequested(s) && LeftoverReached(s)
    ensures Over(s, alone)
  {
  }

  lemma SeatsStayRequested(s: State, op: Op)
    requires SeatsRequested(s)
    ensures SeatsRequested(s.(db := Apply(s.db, op).db))
  {
    forall id | id in MineOf(s)
      ensures id in Apply(s.db, op).db.bookings
      ensures Apply(s.db, op).db.bookings[id].seat in Requested(s)
    {
      StepEvolves(s.db, op, id);
    }
  }

  lemma DistinctSnoc(ids: seq<BookingId>, id: BookingId)
    requires Distinct(ids) && id !in ids
    ensures Distinct(ids + [id])
  {
  }

  lemma RefusedOver(s: State, alone: Db, j: nat, o: Outcome)
    requires Over(s, alone) && s.phase.Reserving? && j < |s.chunks| && o.Refused?
    ensures Over(Tried(s, j, o), alone)
  {
    MineSnoc(s, j, o);
    BookedSnoc(s.outcomes, o);
  }

  lemma ReserveOver(s: State, alone: Db, j: nat, c: Clock, until: Time, id: BookingId)
    requires Over(s, alone) && Trying(s, j)
    ensures Over(Next(s, ReserveNext(j, c, until, id)), alone)
  {
    var number := s.seats[s.chunks[j].next];
    var r := ReserveTx(s.db, c, s.user, s.event, number, until, id);
    ReserveForm(s.db, c, s.user, s.event, number, until, id);
    if r.reply.Failed? {
      RefusedOver(s, alone, j, Refused(number, r.reply.error));
    } else {
      BookedOver(s, alone, j, c, until, id);
    }
  }

  lemma BookedRequested(s: State, j: nat, c: Clock, until: Time, id: BookingId)
    requires SeatsRequested(s) && Trying(s, j)
    requires ReserveTx(s.db, c, s.user, s.event, s.seats[s.chunks[j].next], until, id).reply.Done?
    ensures SeatsRequested(Next(s, ReserveNext(j, c, until, id)))
  {
    var number := s.seats[s.chunks[j].next];
    MineSnoc(s, j, Booked(number, id));
    assert SeatId(s.event, number) in Requested(s);
  }

  lemma BookedHeld(s: State, j: nat, c: Clock, until: Time, id: BookingId) returns (t: State)
    requires Distinct(BookedIds(s.outcomes)) && id !in MineOf(s) && Trying(s, j)
    requires SeatsRequested(s) && LeftoverReached(s)
    requires ReserveTx(s.db, c, s.user, s.event, s.seats[s.chunks[j].next], until, id).reply.Done?
    ensures t == Next(s, ReserveNext(j, c, until, id)) && t.event == s.event
    ensures t.db == ReserveTx(s.db, c, s.user, s.event, s.seats[s.chunks[j].next], until, id).db
    ensures Held(t) == MineOf(t) == MineOf(s) + {id} && Distinct(BookedIds(t.outcomes))
    ensures SeatsRequested(t) && LeftoverReached(t)
  {
    t := Next(s, ReserveNext(j, c, until, id));
    var number := s.seats[s.chunks[j].next];
    MineSnoc(s, j, Booked(number, id));
    BookedSnoc(s.outcomes, Booked(number, id));
    DistinctSnoc(BookedIds(s.outcomes), id);
    BookedRequested(s, j, c, until, id);
  }

  lemma NewNotMine(db: Db, alone: Db, c: Clock, user: UserId, event: EventId, number: string, until: Time,
                   id: BookingId, live: set<BookingId>, mine: set<BookingId>)
    requires Lent(db, alone, event, live, mine) && ReserveTx(db, c, user, event, number, until, id).reply.Done?
    ensures id !in mine
  {
  }

  lemma BookedParts(s: State, t: State, alone: Db, c: Clock, number: string, until: Time, id: BookingId,
                    mine: set<BookingId>)
    requires Inv(s.db) && Inv(alone) && Lent(s.db, alone, s.event, mine, mine)
    requires ReserveTx(s.db, c, s.user, s.event, number, until, id).reply.Done?
    requires t.db == ReserveTx(s.db, c, s.user, s.event, number, until, id).db && t.event == s.event
    requires Held(t) == MineOf(t) == mine + {id}
    requires Distinct(BookedIds(t.outcomes)) && SeatsRequested(t) && LeftoverReached(t)
    ensures Over(t, alone)
  {
    var op := Op(Reserve(s.user, s.event, number, until, id), c);
    assert Apply(s.db, op) == ReserveTx(s.db, c, s.user, s.event, number, until, id);
    ApplyKeepsInv(s.db, op);
    OwnReserve(s.db, alone, c, s.user, s.event, number, until, id, mine, mine);
    Assembled(t, ReserveTx(s.db, c, s.user, s.event, number, until, id).db, alone, s.event, mine + {id}, mine + {id});
  }

  lemma BookedOver(s: State, alone: Db, j: nat, c: Clock, until: Time, id: BookingId)
    requires Over(s, alone) && Trying(s, j)
    requires ReserveTx(s.db, c, s.user, s.event, s.seats[s.chunks[j].next], until, id).reply.Done?
    ensures Over(Next(s, ReserveNext(j, c, until, id)), alone)
  {
    var number := s.seats[s.chunks[j].next];
    NewNotMine(s.db, alone, c, s.user, s.event, number, until, id, MineOf(s), MineOf(s));
    var t := BookedHeld(s, j, c, until, id);
    BookedParts(s, t, alone, c, number, until, id, MineOf(s));
  }

  /** What the call runs over does not depend on where it stands. */
  lemma SamePosition(s: State, t: State, alone: Db)
    requires Over(s, alone) && (t.db, t.event, t.seats, t.outcomes) == (s.db, s.event, s.seats, s.outcomes)
    requires Held(t) == Held(s) && LeftoverReached(t)
    ensures Over(t, alone)
  {
    assert MineOf(t) == MineOf(s) && Requested(t) == Requested(s);
  }

  lemma CollectHeld(s: State)
    requires LeftoverReached(s)
    ensures Held(Next(s, Collect)) == Held(s) && LeftoverReached(Next(s, Collect))
  {
    FromAll(BookedIds(s.outcomes));
  }

  lemma UndoneHeld(s: State, c: Clock)
    requires s.phase.Undoing? && s.phase.done >= |BookedIds(s.outcomes)|
    requires LeftoverReached(s)
    ensures Held(Next(s, Undo(c))) == Held(s) && LeftoverReached(Next(s, Undo(c)))
  {
    assert From(BookedIds(s.outcomes), s.phase.done) == {};
  }

  lemma UndoFailsHeld(s: State)
    requires LeftoverReached(s) && Distinct(BookedIds(s.outcomes))
    ensures Held(Next(s, UndoFails)) == Held(s) && LeftoverReached(Next(s, UndoFails))
  {
    if s.phase.Undoing? && s.phase.done < |BookedIds(s.outcomes)| {
      FromNext(BookedIds(s.outcomes), s.phase.done);
    }
  }

  lemma UndoHeld(s: State, c: Clock) returns (t: State, id: BookingId)
    requires s.phase.Undoing? && s.phase.done < |BookedIds(s.outcomes)| && Distinct(BookedIds(s.outcomes))
    requires SeatsRequested(s) && LeftoverReached(s)
    ensures t == Next(s, Undo(c)) && t.db == ReleaseTx(s.db, c, id, Cancelled, false).db && t.event == s.event
    ensures id in Held(s) && Held(t) == Held(s) - {id} && MineOf(t) == MineOf(s)
    ensures Distinct(BookedIds(t.outcomes)) && SeatsRequested(t) && LeftoverReached(t)
  {
    t, id := Next(s, Undo(c)), BookedIds(s.outcomes)[s.phase.done];
    FromNext(BookedIds(s.outcomes), s.phase.done);
    SeatsStayRequested(s, Op(Cancel(id), c));
  }

  lemma CancelKeepsInv(db: Db, c: Clock, id: BookingId)
    requires Inv(db)
    ensures Inv(ReleaseTx(db, c, id, Cancelled, false).db)
  {
    assert Apply(db, Op(Cancel(id), c)) == ReleaseTx(db, c, id, Cancelled, false);
    ApplyKeepsInv(db, Op(Cancel(id), c));
  }

  lemma CancelOver(s: State, t: State, alone: Db, c: Clock, id: BookingId, live: set<BookingId>, mine: set<BookingId>)
    requires Inv(s.db) && Inv(alone) && Lent(s.db, alone, s.event, live, mine) && id in live
    requires t.db == ReleaseTx(s.db, c, id, Cancelled, false).db && t.event == s.event
    requires Held(t) == live - {id} && MineOf(t) == mine
    requires Distinct(BookedIds(t.outcomes)) && SeatsRequested(t) && LeftoverReached(t)
    ensures Over(t, alone)
  {
    CancelKeepsInv(s.db, c, id);
    OwnCancel(s.db, alone, c, s.event, id, live, mine);
    Assembled(t, ReleaseTx(s.db, c, id, Cancelled, false).db, alone, s.event, live - {id}, mine);
  }

  lemma UndoOver(s: State, alone: Db, c: Clock)
    requires Over(s, alone) && s.phase.Undoing? && s.phase.done < |BookedIds(s.outcomes)|
    ensures Over(Next(s, Undo(c)), alone)
  {
    var t, id := UndoHeld(s, c);
    CancelOver(s, t, alone, c, id, Held(s), MineOf(s));
  }

  lemma KeptOffTaken(s: State, alone: Db, op: Op)
    requires Over(s, alone) && KeepsOff(s, op)
    ensures OutOfTheWay(s.db, op, Held(s), MineOf(s))
  {
    assert Taken(s.db, Held(s)) <= Requested(s);
  }

  lemma OthersOver(s: State, alone: Db, op: Op)
    requires Over(s, alone) && KeepsOff(s, op)
    ensures Over(Next(s, Others(op)), Apply(alone, op).db)
    ensures SameReply(Apply(s.db, op).reply, Apply(alone, op).reply)
  {
    KeptOffTaken(s, alone, op);
    OthersStayLent(s.db, alone, op, s.event, Held(s), MineOf(s));
    ApplyKeepsInv(s.db, op);
    ApplyKeepsInv(alone, op);
    SeatsStayRequested(s, op);
  }

  lemma NextOver(s: State, alone: Db, a: Action)
    requires Over(s, alone) && (a.Others? ==> KeepsOff(s, a.op))
    ensures Over(Next(s, a), if a.Others? then Apply(alone, a.op).db else alone)
  {
    match a
    case ReserveNext(j, c, until, id) => if Trying(s, j) { ReserveOver(s, alone, j, c, until, id); }
    case LockRefused(j, e) => if Trying(s, j) { RefusedOver(s, alone, j, Refused(s.seats[s.chunks[j].next], e)); }
    case Collect =>
      CollectHeld(s);
      SamePosition(s, Next(s, a), alone);
    case Undo(c) =>
      if s.phase.Undoing? {
        if s.phase.done < |BookedIds(s.outcomes)| {
          UndoOver(s, alone, c);
        } else {
          UndoneHeld(s, c);
          SamePosition(s, Next(s, a), alone);
        }
      }
    case UndoFails =>
      UndoFailsHeld(s);
      SamePosition(s, Next(s, a), alone);
    case Others(op) => OthersOver(s, alone, op);
  }

  lemma {:induction false} RunOver(s: State, alone: Db, actions: seq<Action>)
    requires Over(s, alone) && KeptOff(s, actions)
    ensures Over(RunFrom(s, actions), Run(alone, OthersOps(actions)))
  {
    if actions != [] {
      var front, last := actions[..|actions| - 1], actions[|actions| - 1];
      RunOver(s, alone, front);
      NextOver(RunFrom(s, front), Run(alone, OthersOps(front)), last);
      if last.Others? {
        RunSnoc(alone, OthersOps(front), last.op);
      }
    }
  }

  lemma BeginOver(db: Db, user: UserId, event: EventId, seats: seq<string>)
    requires Inv(db)
    ensures Over(Begin(db, user, event, seats), db)
  {
  }

  predicate Failed(s: State) {
    s.phase.Returned? && s.phase.response.BulkFailed?
  }

  /** The bookings the call made and no longer holds are cancelled. */
  ghost predicate Withdrawn(s: State) {
    forall id :: id in MineOf(s) && id !in Held(s) ==>
      id in s.db.bookings && s.db.bookings[id].status.Cancelled?
  }

  lemma StaysWithdrawn(s: State, op: Op)
    requires Withdrawn(s)
    ensures Withdrawn(s.(db := Apply(s.db, op).db))
  {
    forall id | id in MineOf(s) && id !in Held(s)
      ensures id in Apply(s.db, op).db.bookings && Apply(s.db, op).db.bookings[id].status.Cancelled?
    {
      StepEvolves(s.db, op, id);
    }
  }

  lemma UndoWithdrawn(s: State, c: Clock)
    requires Withdrawn(s) && s.phase.Undoing? && s.phase.done < |BookedIds(s.outcomes)|
    requires Distinct(BookedIds(s.outcomes)) && SeatsRequested(s) && LeftoverReached(s)
    requires forall id :: id in Held(s) ==> id in s.db.bookings && s.db.bookings[id].status.Reserved?
    ensures Withdrawn(Next(s, Undo(c)))
  {
    var t, id := UndoHeld(s, c);
    forall i | i in MineOf(t) && i !in Held(t) ensures i in t.db.bookings && t.db.bookings[i].status.Cancelled? {
      if i != id {
        assert i !in Held(s);
      }
    }
  }

  lemma NextWithdrawn(s: State, alone: Db, a: Action)
    requires Over(s, alone) && Withdrawn(s)
    ensures Withdrawn(Next(s, a))
  {
    match a
    case ReserveNext(j, c, until, id) =>
    case LockRefused(j, e) =>
    case Collect =>
      CollectHeld(s);
    case Undo(c) =>
      if s.phase.Undoing? {
        if s.phase.done < |BookedIds(s.outcomes)| {
          UndoWithdrawn(s, c);
        } else {
          UndoneHeld(s, c);
        }
      }
    case UndoFails =>
      UndoFailsHeld(s);
    case Others(op) => StaysWithdrawn(s, op);
  }

  lemma {:induction false} RunWithdrawn(s: State, alone: Db, actions: seq<Action>)
    requires Over(s, alone) && Withdrawn(s) && KeptOff(s, actions)
    ensures Withdrawn(RunFrom(s, actions))
  {
    if actions != [] {
      var front := actions[..|actions| - 1];
      RunWithdrawn(s, alone, front);
      RunOver(s, alone, front);
      NextWithdrawn(RunFrom(s, front), Run(alone, OthersOps(front)), actions[|actions| - 1]);
    }
  }

  lemma LentFacts(s: State, alone: Db)
    requires Over(s, alone) && Withdrawn(s) && Failed(s)
    ensures s.leftover <= s.db.bookings.Keys && SameBookings(s.db, alone, MineOf(s))
    ensures SameSeats(s.db, alone, Taken(s.db, s.leftover)) && SameEvents(s.db, alone, s.event, |s.leftover|)
    ensures forall id :: id in MineOf(s) ==>
              if id in s.leftover then s.db.bookings[id].status.Reserved? else s.db.bookings[id].status.Cancelled?
  {
  }

  lemma NothingTaken(db: Db, alone: Db, event: EventId)
    requires SameSeats(db, alone, {}) && SameEvents(db, alone, event, 0)
    ensures db.events == alone.events && db.seats == alone.seats
  {
  }

  /**
   A call that fails leaves no trace but its own bookings, which are cancelled: every event, every seat
   and every other booking is what the other actors alone would have made of it. If the database refused
   to cancel some of them, those are still reserved, and with them just their seats and as many fewer in
   the counter.
   */
  lemma FailureLeavesNoTrace(db: Db, user: UserId, event: EventId, seats: seq<string>, actions: seq<Action>)
    requires var s0 := Begin(db, user, event, seats); Inv(db) && KeptOff(s0, actions) && Failed(RunFrom(s0, actions))
    ensures var s, alone := RunFrom(Begin(db, user, event, seats), actions), Run(db, OthersOps(actions));
            && s.leftover <= s.db.bookings.Keys && SameBookings(s.db, alone, MineOf(s))
            && (forall id :: id in MineOf(s) ==>
                  if id in s.leftover then s.db.bookings[id].status.Reserved? else s.db.bookings[id].status.Cancelled?)
            && SameSeats(s.db, alone, Taken(s.db, s.leftover)) && SameEvents(s.db, alone, event, |s.leftover|)
            && (s.leftover == {} ==> s.db.events == alone.events && s.db.seats == alone.seats)
  {
    var s0 := Begin(db, user, event, seats);
    BeginOver(db, user, event, seats);
    RunOver(s0, db, actions);
    RunWithdrawn(s0, db, actions);
    RunKeepsRequest(s0, actions);
    var s, alone := RunFrom(s0, actions), Run(db, OthersOps(actions));
    LentFacts(s, alone);
    if s.leftover == {} {
      assert Taken(s.db, s.leftover) == {};
      NothingTaken(s.db, alone, event);
    }
  }

  // ---------------------------------------------------------------- the requested seats and the counter

  /** What the other actors' transactions, as they went in this run, add to an event's counter. */
  function OthersSwing(s: State, actions: seq<Action>, e: EventId): int {
    if actions == [] then 0
    else
      var front, last := actions[..|actions| - 1], actions[|actions| - 1];
      OthersSwing(s, front, e)
        + if last.Others? then Swing(last.op, Apply(RunFrom(s, front).db, last.op).reply, e) else 0
  }

  /** The tables without the call agree with `db` on its seats, and on the counter up to `swing`. */
  predicate Undisturbed(s: State, db: Db, alone: Db, swing: int) {
    && (forall x :: x in Requested(s) && x in db.seats ==> x in alone.seats && alone.seats[x] == db.seats[x])
    && (s.event in db.events ==>
          s.event in alone.events && alone.events[s.event].available == db.events[s.event].available + swing)
  }

  predicate LeavesSeat(db: Db, op: Op, x: SeatId) {
    match op.request
    case CreateEvent(_, _, _) => true
    case SeedSeats(_) => true
    case Reserve(_, e, number, _, _) => SeatId(e, number) != x
    case _ => op.request.id in db.bookings ==> db.bookings[op.request.id].seat != x
  }

  lemma SeatLeft(db: Db, op: Op, x: SeatId)
    requires LeavesSeat(db, op, x) && x in db.seats
    ensures x in Apply(db, op).db.seats && Apply(db, op).db.seats[x] == db.seats[x]
  {
    match op.request
    case SeedSeats(e) =>
      if e in db.events && SeatBlock(e, db.events[e].total) !! db.seats.Keys {
        assert x !in SeatBlock(e, db.events[e].total);
      }
    case _ =>
  }

  lemma SeatUntouched(s: State, alone: Db, op: Op, x: SeatId)
    requires SameBookings(s.db, alone, MineOf(s)) && KeepsOff(s, op) && x in Requested(s)
    ensures LeavesSeat(alone, op, x)
  {
  }

  lemma OthersUndisturbed(s: State, db: Db, alone: Db, op: Op, swing: int)
    requires Over(s, alone) && KeepsOff(s, op) && Undisturbed(s, db, alone, swing)
    ensures Undisturbed(s, db, Apply(alone, op).db, swing + Swing(op, Apply(s.db, op).reply, s.event))
  {
    forall x | x in Requested(s) && x in db.seats
      ensures x in Apply(alone, op).db.seats && Apply(alone, op).db.seats[x] == db.seats[x]
    {
      SeatUntouched(s, alone, op, x);
      SeatLeft(alone, op, x);
    }
    OthersOver(s, alone, op);
    CounterStep(alone, op, s.event);
  }

  lemma {:induction false} RunUndisturbed(s: State, db: Db, actions: seq<Action>)
    requires Over(s, db) && KeptOff(s, actions)
    ensures Undisturbed(s, db, Run(db, OthersOps(actions)), OthersSwing(s, actions, s.event))
  {
    if actions != [] {
      var front, last := actions[..|actions| - 1], actions[|actions| - 1];
      RunUndisturbed(s, db, front);
      if last.Others? {
        RunOver(s, db, front);
        RunKeepsRequest(s, front);
        OthersUndisturbed(RunFrom(s, front), db, Run(db, OthersOps(front)), last.op, OthersSwing(s, front, s.event));
        RunSnoc(db, OthersOps(front), last.op);
      }
    }
  }

  lemma RestoredSeat(db: Db, alone: Db, taken: set<SeatId>, x: SeatId)
    requires SameSeats(db, alone, taken) && x in alone.seats && x !in taken
    ensures x in db.seats && db.seats[x] == alone.seats[x]
  {
  }

  /**
   A call that fails puts back every seat it asked for, as it was before, but those of bookings it could
   not cancel; and the counter of its event differs only by what other actors did, and by those. The
   others are free to work on the event's other seats meanwhile.
   */
  lemma FailureRestoresEvent(db: Db, user: UserId, event: EventId, seats: seq<string>, actions: seq<Action>)
    requires var s0 := Begin(db, user, event, seats); Inv(db) && KeptOff(s0, actions) && Failed(RunFrom(s0, actions))
    ensures var s0 := Begin(db, user, event, seats);
            var s := RunFrom(s0, actions);
            && s.leftover <= s.db.bookings.Keys
            && (forall number :: number in seats && SeatId(event, number) in db.seats ==>
                  SeatId(event, number) in Taken(s.db, s.leftover) ||
                  (SeatId(event, number) in s.db.seats
                   && s.db.seats[SeatId(event, number)] == db.seats[SeatId(event, number)]))
            && (event in db.events ==>
                  && event in s.db.events
                  && s.db.events[event].available
                     == db.events[event].available + OthersSwing(s0, actions, event) - |s.leftover|)
  {
    var s0 := Begin(db, user, event, seats);
    var s, alone := RunFrom(s0, actions), Run(db, OthersOps(actions));
    FailureLeavesNoTrace(db, user, event, seats, actions);
    BeginOver(db, user, event, seats);
    RunUndisturbed(s0, db, actions);
    forall number | number in seats && SeatId(event, number) in db.seats
                    && SeatId(event, number) !in Taken(s.db, s.leftover)
      ensures SeatId(event, number) in s.db.seats
      ensures s.db.seats[SeatId(event, number)] == db.seats[SeatId(event, number)]
    {
      assert SeatId(event, number) in Requested(s0);
      RestoredSeat(s.db, alone, Taken(s.db, s.leftover), SeatId(event, number));
    }
  }
}
