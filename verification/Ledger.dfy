/**
 The three tables a booking touches, and every transaction that changes them.

 A seat row is addressed by its candidate key (event, seat number). Each transaction is a total
 function from the tables it finds to the tables it leaves and the reply it gives; a failed
 transaction leaves the tables as they were.
 */
module Ledger {
  import opened Prelude
  import opened SeatNumbers

  type Time = int
  type UserId = nat
  type EventId = nat
  type BookingId = nat

  datatype SeatId = SeatId(event: EventId, number: string)

  datatype SeatStatus = Available | Reserved | Sold

  datatype BookingStatus = Reserved | Purchased | Cancelled | Expired

  datatype Event = Event(total: nat, available: int, price: real)

  datatype Seat = Seat(status: SeatStatus, reservedUntil: Option<Time>)

  /** An empty payment intent is read back as no intent, so it is stored as `None`. */
  datatype Booking = Booking(
    user: UserId, event: EventId, seat: SeatId, status: BookingStatus, amount: real,
    expiresAt: Time, purchasedAt: Option<Time>, intent: Option<string>)
  {
    /** Reserved and purchased bookings hold their seat; the other two statuses are terminal. */
    predicate Live() {
      status.Reserved? || status.Purchased?
    }
  }

  datatype Db = Db(
    events: map<EventId, Event>, seats: map<SeatId, Seat>, bookings: map<BookingId, Booking>)

  const EMPTY := Db(map[], map[], map[])

  datatype Error =
    | EventNotFound
    | NoAvailableSeats
    | SeatNotFound
    | SeatNotAvailable
    | SeatAlreadyBooked
    | BookingNotFound
    | BookingNotReserved
    | BookingNotPurchased
    | BookingExpired
    | UniqueViolation

  datatype Reply = Done(booking: Booking) | Created | Failed(error: Error)

  datatype Effect = Effect(db: Db, reply: Reply)

  /**
   What the clock shows one transaction: `start` is CURRENT_TIMESTAMP, fixed when the transaction
   begins; `first` and `second` are the wall-clock readings taken after its row locks.
   */
  datatype Clock = Clock(start: Time, first: Time, second: Time)
  {
    predicate Monotone() {
      start <= first <= second
    }
  }

  datatype Request =
    | CreateEvent(event: EventId, total: nat, price: real)
    | SeedSeats(event: EventId)
    | Reserve(user: UserId, event: EventId, number: string, until: Time, id: BookingId)
    | SetIntent(id: BookingId, intent: string)
    | Extend(id: BookingId, until: Time, entered: Time)
    | Complete(id: BookingId)
    | Revert(id: BookingId)
    | Expire(id: BookingId)
    | Cancel(id: BookingId)

  datatype Op = Op(request: Request, clock: Clock)

  // ---------------------------------------------------------------- row updates

  function WriteBooking(db: Db, id: BookingId, b: Booking): Db {
    db.(bookings := db.bookings[id := b])
  }

  /** UPDATE seats ... WHERE id: no row, no change. */
  function WriteSeat(db: Db, s: SeatId, row: Seat): Db {
    if s in db.seats then db.(seats := db.seats[s := row]) else db
  }

  /** UPDATE events SET available_seats = available_seats + delta WHERE id. */
  function AddAvailable(db: Db, e: EventId, delta: int): Db {
    if e in db.events then
      db.(events := db.events[e := db.events[e].(available := db.events[e].available + delta)])
    else
      db
  }

  const FREE := Seat(SeatStatus.Available, None)

  // ---------------------------------------------------------------- transactions

  function CreateEventTx(db: Db, e: EventId, total: nat, price: real): Effect {
    if e in db.events then
      Effect(db, Failed(UniqueViolation))
    else
      Effect(db.(events := db.events[e := Event(total, total, price)]), Created)
  }

  /** The seats of an event with `total` of them. */
  function SeatBlock(e: EventId, total: nat): set<SeatId> {
    set i: nat | 1 <= i <= total :: SeatId(e, FormatSeatNumber(i))
  }

  function FreeSeats(block: set<SeatId>): map<SeatId, Seat> {
    map s | s in block :: FREE
  }

  /** The second transaction of event creation; it inserts as many seats as the event was created with. */
  function SeedSeatsTx(db: Db, e: EventId): Effect {
    if e !in db.events then
      Effect(db, Failed(EventNotFound))
    else
      var block := SeatBlock(e, db.events[e].total);
      if block !! db.seats.Keys then
        Effect(db.(seats := db.seats + FreeSeats(block)), Created)
      else
        Effect(db, Failed(UniqueViolation))
  }

  function ReserveTx(
    db: Db, c: Clock, user: UserId, e: EventId, number: string, until: Time, id: BookingId): Effect
  {
    var s := SeatId(e, number);
    if e !in db.events then
      Effect(db, Failed(EventNotFound))
    else if db.events[e].available <= 0 then
      Effect(db, Failed(NoAvailableSeats))
    else if s !in db.seats then
      Effect(db, Failed(SeatNotFound))
    else if !db.seats[s].status.Available? then
      Effect(db, Failed(SeatNotAvailable))
    else if db.seats[s].reservedUntil.Some? && c.first < db.seats[s].reservedUntil.value then
      Effect(db, Failed(SeatNotAvailable))
    else if id in db.bookings then
      Effect(db, Failed(UniqueViolation))
    else
      var b := Booking(user, e, s, BookingStatus.Reserved, db.events[e].price, until, None, None);
      var db1 := AddAvailable(db, e, -1);
      var db2 := WriteSeat(db1, s, Seat(SeatStatus.Reserved, Some(until)));
      Effect(WriteBooking(db2, id, b), Done(b))
  }

  function SetIntentTx(db: Db, id: BookingId, intent: string): Effect {
    if id !in db.bookings then
      Effect(db, Failed(BookingNotFound))
    else
      var b := db.bookings[id];
      if b.Live() && b.intent.None? then
        var b' := b.(intent := if intent == "" then None else Some(intent));
        Effect(WriteBooking(db, id, b'), Done(b'))
      else if b.intent.Some? then
        Effect(db, Done(b))
      else
        Effect(db, Failed(BookingNotReserved))
  }

  function ExtendTx(db: Db, c: Clock, id: BookingId, until: Time, entered: Time): Effect {
    if until <= entered then
      Effect(db, Failed(BookingExpired))
    else if id !in db.bookings then
      Effect(db, Failed(BookingNotFound))
    else
      var b := db.bookings[id];
      if !b.status.Reserved? then
        Effect(db, Failed(BookingNotReserved))
      else if c.first > b.expiresAt then
        Effect(db, Failed(BookingExpired))
      else if b.seat !in db.seats then
        Effect(db, Failed(SeatNotFound))
      else
        var seat := db.seats[b.seat];
        if b.seat.event != b.event || !seat.status.Reserved? then
          Effect(db, Failed(SeatNotAvailable))
        else if seat.reservedUntil.Some? && c.second > seat.reservedUntil.value then
          Effect(db, Failed(SeatNotAvailable))
        else if b.expiresAt <= c.start then
          Effect(db, Failed(BookingNotReserved))
        else
          var b' := b.(expiresAt := if until > b.expiresAt then until else b.expiresAt);
          var db1 := WriteBooking(db, id, b');
          Effect(WriteSeat(db1, b.seat, seat.(reservedUntil := Some(b'.expiresAt))), Done(b'))
  }

  function CompleteTx(db: Db, c: Clock, id: BookingId): Effect {
    if id !in db.bookings then
      Effect(db, Failed(BookingNotFound))
    else
      var b := db.bookings[id];
      if b.status.Purchased? then
        Effect(db, Done(b))
      else if !b.status.Reserved? then
        Effect(db, Failed(BookingNotReserved))
      else if c.first > b.expiresAt then
        Effect(db, Failed(BookingExpired))
      else if b.expiresAt <= c.start then
        Effect(db, Failed(BookingNotReserved))
      else
        var b' := b.(status := Purchased, purchasedAt := Some(c.start));
        Effect(WriteSeat(WriteBooking(db, id, b'), b.seat, Seat(Sold, None)), Done(b'))
  }

  /** Undoes a committed purchase; the seat is freed only if it is still marked sold. */
  function RevertTx(db: Db, id: BookingId): Effect {
    if id !in db.bookings then
      Effect(db, Failed(BookingNotFound))
    else
      var b := db.bookings[id];
      if !b.status.Purchased? then
        Effect(db, Failed(BookingNotPurchased))
      else
        var b' := b.(status := Cancelled, purchasedAt := None, intent := None);
        var db1 := WriteBooking(db, id, b');
        var db2 := if b.seat in db1.seats && db1.seats[b.seat].status.Sold? then WriteSeat(db1, b.seat, FREE) else db1;
        Effect(AddAvailable(db2, b.event, 1), Done(b'))
  }

  /** Cancels (`requireExpired` false) or expires (`requireExpired` true) a reservation. */
  function ReleaseTx(db: Db, c: Clock, id: BookingId, status: BookingStatus, requireExpired: bool): Effect {
    if id !in db.bookings then
      Effect(db, Failed(BookingNotFound))
    else
      var b := db.bookings[id];
      if !b.status.Reserved? then
        Effect(db, Failed(BookingNotReserved))
      else if requireExpired && c.first < b.expiresAt then
        Effect(db, Failed(BookingNotReserved))
      else if requireExpired && c.start < b.expiresAt then
        Effect(db, Failed(BookingNotReserved))
      else
        var b' := b.(status := status);
        var db1 := WriteBooking(db, id, b');
        Effect(AddAvailable(WriteSeat(db1, b.seat, FREE), b.event, 1), Done(b'))
  }

  function Apply(db: Db, op: Op): Effect {
    match op.request
    case CreateEvent(e, total, price) => CreateEventTx(db, e, total, price)
    case SeedSeats(e) => SeedSeatsTx(db, e)
    case Reserve(user, e, number, until, id) => ReserveTx(db, op.clock, user, e, number, until, id)
    case SetIntent(id, intent) => SetIntentTx(db, id, intent)
    case Extend(id, until, entered) => ExtendTx(db, op.clock, id, until, entered)
    case Complete(id) => CompleteTx(db, op.clock, id)
    case Revert(id) => RevertTx(db, id)
    case Expire(id) => ReleaseTx(db, op.clock, id, BookingStatus.Expired, true)
    case Cancel(id) => ReleaseTx(db, op.clock, id, Cancelled, false)
  }

  // ---------------------------------------------------------------- the invariant

  function SeatsOf(db: Db, e: EventId): set<SeatId> {
    set s | s in db.seats && s.event == e
  }

  function AvailableSeats(db: Db, e: EventId): set<SeatId> {
    set s | s in db.seats && s.event == e && db.seats[s].status.Available?
  }

  /** The bookings currently holding a seat. */
  function Holders(db: Db, s: SeatId): set<BookingId> {
    set id | id in db.bookings && db.bookings[id].seat == s && db.bookings[id].Live()
  }

  /** A live booking and its seat tell the same story, down to the deadline. */
  predicate Agree(b: Booking, seat: Seat) {
    match b.status
    case Reserved => seat == Seat(SeatStatus.Reserved, Some(b.expiresAt))
    case Purchased => seat == Seat(Sold, None)
    case _ => true
  }

  /** Only a purchased booking carries a purchase time, and that time precedes its deadline. */
  predicate PurchaseTimely(b: Booking) {
    if b.status.Purchased? then
      b.purchasedAt.Some? && b.purchasedAt.value < b.expiresAt
    else
      b.purchasedAt.None?
  }

  ghost predicate RowsLinked(db: Db) {
    && (forall s <- db.seats :: s.event in db.events)
    && (forall id <- db.bookings ::
          var b := db.bookings[id];
          b.seat in db.seats && b.seat.event == b.event && PurchaseTimely(b) && Agree(b, db.seats[b.seat]))
  }

  ghost predicate SeatsHeldOnce(db: Db) {
    forall i <- db.bookings, j <- db.bookings ::
      db.bookings[i].Live() && db.bookings[j].Live() && db.bookings[i].seat == db.bookings[j].seat ==> i == j
  }

  ghost predicate TakenSeatsHeld(db: Db) {
    forall s <- db.seats ::
      if db.seats[s].status.Available? then db.seats[s].reservedUntil.None? else Holders(db, s) != {}
  }

  /**
   The counter of an event whose seats were inserted counts its available seats. Before that
   second transaction of event creation there are no seats to count and the counter is untouched.
   */
  ghost predicate CounterExact(db: Db, e: EventId)
    requires e in db.events
  {
    if SeatsOf(db, e) == {} then
      db.events[e].available == db.events[e].total
    else
      db.events[e].available == |AvailableSeats(db, e)| && SeatsOf(db, e) == SeatBlock(e, db.events[e].total)
  }

  ghost predicate Inv(db: Db) {
    && RowsLinked(db)
    && SeatsHeldOnce(db)
    && TakenSeatsHeld(db)
    && forall e <- db.events :: CounterExact(db, e)
  }

  // ---------------------------------------------------------------- preservation

  lemma SeatBlockSize(e: EventId, total: nat)
    ensures |SeatBlock(e, total)| == total
  {
    var f := (i: nat) => SeatId(e, if i >= 1 then FormatSeatNumber(i) else "");
    forall i: nat, j: nat | 1 <= i < j <= total ensures f(i) != f(j) {
      if f(i) == f(j) { SeatNumbersDistinct(i, j); }
    }
    var image := set i: nat | 1 <= i <= total :: f(i);
    forall s ensures s in SeatBlock(e, total) <==> s in image {
      if s in SeatBlock(e, total) {
        var i: nat :| 1 <= i <= total && s == SeatId(e, FormatSeatNumber(i));
        assert f(i) == s;
      }
    }
    assert SeatBlock(e, total) == image;
    ImageSize(f, total, image);
  }

  lemma CreateKeepsInv(db: Db, e: EventId, total: nat, price: real)
    requires Inv(db)
    ensures Inv(CreateEventTx(db, e, total, price).db)
  {
    var db' := CreateEventTx(db, e, total, price).db;
    if db' != db {
      assert SeatsOf(db', e) == {};
      forall x | x in db'.events ensures CounterExact(db', x) {
        assert SeatsOf(db', x) == SeatsOf(db, x);
        assert AvailableSeats(db', x) == AvailableSeats(db, x);
      }
      forall s | s in db'.seats ensures Holders(db', s) == Holders(db, s) {}
    }
  }

  lemma SeedCounts(db: Db, db': Db, e: EventId, block: set<SeatId>, x: EventId)
    requires forall s <- block :: s.event == e
    requires block !! db.seats.Keys && db'.seats == db.seats + FreeSeats(block)
    ensures SeatsOf(db', x) == if x == e then SeatsOf(db, x) + block else SeatsOf(db, x)
    ensures AvailableSeats(db', x) == if x == e then AvailableSeats(db, x) + block else AvailableSeats(db, x)
  {
  }

  lemma SeedKeepsCounter(db: Db, e: EventId, x: EventId)
    requires x in db.events && CounterExact(db, x)
    ensures CounterExact(SeedSeatsTx(db, e).db, x)
  {
    var db' := SeedSeatsTx(db, e).db;
    if db' != db {
      var block := SeatBlock(e, db.events[e].total);
      SeedCounts(db, db', e, block, x);
      if x == e {
        SeatBlockSize(e, db.events[e].total);
        assert SeatsOf(db, e) <= db.seats.Keys;
        assert AvailableSeats(db, e) <= SeatsOf(db, e);
      }
    }
  }

  lemma SeedKeepsInv(db: Db, e: EventId)
    requires Inv(db)
    ensures Inv(SeedSeatsTx(db, e).db)
  {
    var db' := SeedSeatsTx(db, e).db;
    if db' != db {
      forall s | s in db'.seats ensures Holders(db', s) == Holders(db, s) {}
      forall x | x in db'.events ensures CounterExact(db', x) { SeedKeepsCounter(db, e, x); }
    }
  }

  /** How far one seat's change moves the counter of its event. */
  function CounterShift(before: Seat, after: Seat): int {
    (if after.status.Available? then 1 else 0) - (if before.status.Available? then 1 else 0)
  }

  /**
   Every transaction on a booking has this shape: it writes one booking row `b`, the row of that
   booking's seat, and the counter of that booking's event. The booking was live, or is new and
   finds its seat available; afterwards booking, seat and counter agree.
   */
  ghost predicate Rebooks(db: Db, db': Db, id: BookingId, b: Booking, row: Seat) {
    && b.seat in db.seats && b.seat.event == b.event && b.event in db.events
    && PurchaseTimely(b) && Agree(b, row)
    && (row.status.Available? ==> row == FREE)
    && (row.status.Available? <==> !b.Live())
    && (if id in db.bookings then
          db.bookings[id].Live() && db.bookings[id].seat == b.seat
        else
          db.seats[b.seat].status.Available?)
    && db' == AddAvailable(
                WriteSeat(WriteBooking(db, id, b), b.seat, row), b.event, CounterShift(db.seats[b.seat], row))
  }

  lemma RebookApart(db: Db, db': Db, id: BookingId, b: Booking, row: Seat, i: BookingId)
    requires RowsLinked(db) && SeatsHeldOnce(db) && Rebooks(db, db', id, b, row)
    requires i in db.bookings && i != id && db.bookings[i].Live()
    ensures db.bookings[i].seat != b.seat
  {
    assert Agree(db.bookings[i], db.seats[db.bookings[i].seat]);
  }

  lemma RebookHolders(db: Db, db': Db, id: BookingId, b: Booking, row: Seat, s: SeatId)
    requires RowsLinked(db) && SeatsHeldOnce(db) && Rebooks(db, db', id, b, row) && s in db.seats
    ensures Holders(db', s) == if s != b.seat then Holders(db, s) else if b.Live() then {id} else {}
  {
    forall i | i in db.bookings && i != id && db.bookings[i].Live() ensures db.bookings[i].seat != b.seat {
      RebookApart(db, db', id, b, row, i);
    }
  }

  lemma SeatWriteSets(db: Db, db': Db, s: SeatId, row: Seat, x: EventId)
    requires s in db.seats && db'.seats == db.seats[s := row]
    ensures SeatsOf(db', x) == SeatsOf(db, x)
    ensures AvailableSeats(db', x) - {s} == AvailableSeats(db, x) - {s}
  {
  }

  lemma SeatWriteCounts(db: Db, db': Db, s: SeatId, row: Seat, x: EventId)
    requires s in db.seats && db'.seats == db.seats[s := row]
    ensures |AvailableSeats(db', x)|
         == |AvailableSeats(db, x)| + if x == s.event then CounterShift(db.seats[s], row) else 0
  {
    SeatWriteSets(db, db', s, row, x);
    WithoutOne(AvailableSeats(db, x), s);
    WithoutOne(AvailableSeats(db', x), s);
  }

  lemma RebookCounter(db: Db, db': Db, id: BookingId, b: Booking, row: Seat, x: EventId)
    requires Rebooks(db, db', id, b, row) && x in db.events && CounterExact(db, x)
    ensures CounterExact(db', x)
  {
    SeatWriteSets(db, db', b.seat, row, x);
    SeatWriteCounts(db, db', b.seat, row, x);
    if x == b.event {
      assert b.seat in SeatsOf(db, x);
    }
  }

  lemma RebookRows(db: Db, db': Db, id: BookingId, b: Booking, row: Seat)
    requires RowsLinked(db) && Rebooks(db, db', id, b, row)
    requires forall i <- db.bookings :: i != id && db.bookings[i].Live() ==> db.bookings[i].seat != b.seat
    ensures RowsLinked(db')
  {
  }

  lemma RebookLinks(db: Db, db': Db, id: BookingId, b: Booking, row: Seat)
    requires RowsLinked(db) && SeatsHeldOnce(db) && Rebooks(db, db', id, b, row)
    ensures RowsLinked(db') && SeatsHeldOnce(db')
  {
    forall i | i in db.bookings && i != id && db.bookings[i].Live() ensures db.bookings[i].seat != b.seat {
      RebookApart(db, db', id, b, row, i);
    }
    RebookRows(db, db', id, b, row);
  }

  lemma RebookKeepsInv(db: Db, db': Db, id: BookingId, b: Booking, row: Seat)
    requires Inv(db) && Rebooks(db, db', id, b, row)
    ensures Inv(db')
  {
    RebookLinks(db, db', id, b, row);
    forall s | s in db'.seats
      ensures if db'.seats[s].status.Available? then db'.seats[s].reservedUntil.None? else Holders(db', s) != {}
    {
      RebookHolders(db, db', id, b, row, s);
    }
    forall x | x in db'.events ensures CounterExact(db', x) {
      RebookCounter(db, db', id, b, row, x);
    }
  }

  /** Every change made by a transaction on a booking re-books it. */
  lemma BookingTxRebooks(db: Db, op: Op)
    requires RowsLinked(db) && !op.request.CreateEvent? && !op.request.SeedSeats?
    requires Apply(db, op).db != db
    ensures var r := Apply(db, op);
            r.reply.Done? && r.reply.booking.seat in r.db.seats &&
            Rebooks(db, r.db, op.request.id, r.reply.booking, r.db.seats[r.reply.booking.seat])
  {
    match op.request
    case Reserve(_, _, _, _, _) =>
    case SetIntent(_, _) =>
    case Extend(_, _, _) =>
    case Complete(_) =>
    case Revert(_) =>
    case Expire(_) =>
    case Cancel(_) =>
  }

  /** Every transaction keeps the invariant, whatever its arguments and its clock. */
  lemma {:induction false} ApplyKeepsInv(db: Db, op: Op)
    requires Inv(db)
    ensures Inv(Apply(db, op).db)
  {
    var r := Apply(db, op);
    match op.request
    case CreateEvent(e, total, price) => CreateKeepsInv(db, e, total, price);
    case SeedSeats(e) => SeedKeepsInv(db, e);
    case _ =>
      if r.db != db {
        BookingTxRebooks(db, op);
        RebookKeepsInv(db, r.db, op.request.id, r.reply.booking, r.db.seats[r.reply.booking.seat]);
      }
  }
}
