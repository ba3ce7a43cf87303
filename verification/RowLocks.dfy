/**
 The booking transactions, one SQL statement at a time.

 A transaction keeps its uncommitted row versions to itself and an exclusive lock on every row it
 selected for update or updated, until it commits or rolls back. `Step` is the program of each
 transaction: it reads one row per statement, under the lock of that row.
 */
module RowLocks {
  import opened Prelude
  import opened Ledger

  datatype Key = BookingKey(id: BookingId) | SeatKey(seat: SeatId) | EventKey(event: EventId)

  /** The order in which blocking statements acquire rows: bookings, then seats, then events. */
  function Rank(k: Key): nat {
    match k
    case BookingKey(_) => 0
    case SeatKey(_) => 1
    case EventKey(_) => 2
  }

  datatype Row = Missing | BookingRow(booking: Booking) | SeatRow(seat: Seat) | EventRow(event: Event)

  function Look(db: Db, k: Key): Row {
    match k
    case BookingKey(id) => if id in db.bookings then BookingRow(db.bookings[id]) else Missing
    case SeatKey(s) => if s in db.seats then SeatRow(db.seats[s]) else Missing
    case EventKey(e) => if e in db.events then EventRow(db.events[e]) else Missing
  }

  /** The tables as seen by a transaction with uncommitted row versions `w`. */
  function Overlay(db: Db, w: Db): Db {
    Db(db.events + w.events, db.seats + w.seats, db.bookings + w.bookings)
  }

  /**
   A running transaction: the statements executed so far (one clock reading each), the booking
   row its code holds a copy of, its uncommitted row versions and its locks.
   */
  datatype Txn = Txn(
    request: Request, start: Time, times: seq<Time>, booking: Option<Booking>, price: real,
    writes: Db, held: set<Key>)

  datatype Progress = More(txn: Txn) | Ready(txn: Txn, reply: Reply) | Abort(error: Error)

  /** Waiting statements block on a lock; NOWAIT statements fail on it. */
  datatype Mode = Wait | NoWait

  function Begin(request: Request, start: Time): Txn {
    Txn(request, start, [], None, 0.0, EMPTY, {})
  }

  /** The booking row the code read; before that, no statement depends on it. */
  function Seen(t: Txn): Booking {
    match t.booking
    case Some(b) => b
    case None => Booking(0, 0, SeatId(0, ""), Cancelled, 0.0, 0, None, None)
  }

  /** The row the next statement locks and reads. */
  function NextKey(t: Txn): Key {
    match t.request
    case Reserve(_, e, number, _, id) =>
      if |t.times| == 0 then EventKey(e) else if |t.times| <= 2 then SeatKey(SeatId(e, number)) else BookingKey(id)
    case Extend(id, _, _) =>
      if |t.times| % 2 == 0 then BookingKey(id) else SeatKey(Seen(t).seat)
    case CreateEvent(e, _, _) => EventKey(e)
    case SeedSeats(e) => EventKey(e)
    case _ =>
      if |t.times| <= 1 then BookingKey(t.request.id)
      else if |t.times| == 2 then SeatKey(Seen(t).seat)
      else EventKey(Seen(t).event)
  }

  /** SELECT ... FOR UPDATE NOWAIT is used for seats by reserve and extend, and nowhere else. */
  function NextMode(t: Txn): Mode {
    if (t.request.Reserve? || t.request.Extend?) && |t.times| == 1 then NoWait else Wait
  }

  /** The transaction after its next statement took its lock and read the clock. */
  function Past(t: Txn, now: Time): Txn {
    t.(times := t.times + [now], held := t.held + {NextKey(t)})
  }

  function PutBooking(t: Txn, id: BookingId, b: Booking): Txn {
    t.(writes := t.writes.(bookings := t.writes.bookings[id := b]))
  }

  function PutSeat(t: Txn, s: SeatId, row: Seat): Txn {
    t.(writes := t.writes.(seats := t.writes.seats[s := row]))
  }

  function PutEvent(t: Txn, e: EventId, row: Event): Txn {
    t.(writes := t.writes.(events := t.writes.events[e := row]))
  }

  /** The longest a transaction can run before it is ready to commit. */
  function Statements(r: Request): nat {
    match r
    case SetIntent(_, _) => 1
    case Complete(_) => 3
    case _ => 4
  }

  /** The rows of which `w` holds uncommitted versions. */
  predicate Writes(w: Db, k: Key) {
    !Look(w, k).Missing?
  }

  /** `w'` is `w` with at most the version of row `k` replaced. */
  ghost predicate DiffersAt(w: Db, w': Db, k: Key) {
    match k
    case BookingKey(id) => w'.events == w.events && w'.seats == w.seats && w'.bookings.Keys <= w.bookings.Keys + {id}
    case SeatKey(s) => w'.events == w.events && w'.seats.Keys <= w.seats.Keys + {s} && w'.bookings == w.bookings
    case EventKey(e) => w'.events.Keys <= w.events.Keys + {e} && w'.seats == w.seats && w'.bookings == w.bookings
  }

  /** A statement takes one lock, reads the clock once, and writes nothing but the row it locked. */
  ghost predicate Advances(t: Txn, now: Time, p: Progress) {
    !p.Abort? ==>
      && (p.txn.request, p.txn.start) == (t.request, t.start)
      && p.txn.times == t.times + [now]
      && p.txn.held == t.held + {NextKey(t)}
      && (|t.times| < Statements(t.request) ==> DiffersAt(t.writes, p.txn.writes, NextKey(t)))
  }

  // ---------------------------------------------------------------- the programs

  function ReserveStep(t: Txn, row: Row, now: Time): (p: Progress)
    requires t.request.Reserve?
    ensures Advances(t, now, p)
  {
    var Reserve(user, e, number, until, id) := t.request;
    var s := SeatId(e, number);
    var t' := Past(t, now);
    match (|t.times|, row)
    case (0, EventRow(event)) =>      // UPDATE events ... AND available_seats > 0 RETURNING ticket_price
      if event.available > 0 then
        More(PutEvent(t'.(price := event.price), e, event.(available := event.available - 1)))
      else
        Abort(NoAvailableSeats)
    case (0, _) => Abort(EventNotFound)
    case (1, SeatRow(seat)) =>        // SELECT ... FROM seats ... FOR UPDATE NOWAIT
      if !seat.status.Available? then Abort(SeatNotAvailable)
      else if seat.reservedUntil.Some? && now < seat.reservedUntil.value then Abort(SeatNotAvailable)
      else More(t')
    case (1, _) => Abort(SeatNotFound)
    case (2, SeatRow(_)) =>           // UPDATE seats
      More(PutSeat(t', s, Seat(SeatStatus.Reserved, Some(until))))
    case (2, _) => More(t')
    case (_, Missing) =>              // INSERT INTO bookings
      var b := Booking(user, e, s, BookingStatus.Reserved, t.price, until, None, None);
      Ready(PutBooking(t', id, b), Done(b))
    case (_, _) => Abort(UniqueViolation)
  }

  function SetIntentStep(t: Txn, row: Row, now: Time): (p: Progress)
    requires t.request.SetIntent?
    ensures Advances(t, now, p)
  {
    match row
    case BookingRow(b) =>
      if b.Live() && b.intent.None? then
        var b' := b.(intent := if t.request.intent == "" then None else Some(t.request.intent));
        Ready(PutBooking(Past(t, now), t.request.id, b'), Done(b'))
      else if b.intent.Some? then
        Ready(Past(t, now), Done(b))
      else
        Abort(BookingNotReserved)
    case _ => Abort(BookingNotFound)
  }

  function ExtendStep(t: Txn, row: Row, now: Time): (p: Progress)
    requires t.request.Extend?
    ensures Advances(t, now, p)
  {
    var Extend(id, until, entered) := t.request;
    var t' := Past(t, now);
    match (|t.times|, row)
    case (0, BookingRow(b)) =>        // SELECT ... FROM bookings ... FOR UPDATE
      if until <= entered then Abort(BookingExpired)
      else if !b.status.Reserved? then Abort(BookingNotReserved)
      else if now > b.expiresAt then Abort(BookingExpired)
      else More(t'.(booking := Some(b)))
    case (0, _) => Abort(if until <= entered then BookingExpired else BookingNotFound)
    case (1, SeatRow(seat)) =>        // SELECT ... FROM seats ... FOR UPDATE NOWAIT
      var b := Seen(t);
      if b.seat.event != b.event || !seat.status.Reserved? then Abort(SeatNotAvailable)
      else if seat.reservedUntil.Some? && now > seat.reservedUntil.value then Abort(SeatNotAvailable)
      else More(t'.(booking := Some(b.(expiresAt := if until > b.expiresAt then until else b.expiresAt))))
    case (1, _) => Abort(SeatNotFound)
    case (2, BookingRow(b)) =>        // UPDATE bookings ... AND status = reserved AND expires_at > CURRENT_TIMESTAMP
      if b.status.Reserved? && b.expiresAt > t.start then
        More(PutBooking(t', id, b.(expiresAt := Seen(t).expiresAt)))
      else
        Abort(BookingNotReserved)
    case (2, _) => Abort(BookingNotReserved)
    case (_, SeatRow(seat)) =>        // UPDATE seats ... AND status = reserved
      if seat.status.Reserved? then
        Ready(PutSeat(t', Seen(t).seat, seat.(reservedUntil := Some(Seen(t).expiresAt))), Done(Seen(t)))
      else
        Abort(SeatNotAvailable)
    case (_, _) => Abort(SeatNotAvailable)
  }

  function CompleteStep(t: Txn, row: Row, now: Time): (p: Progress)
    requires t.request.Complete?
    ensures Advances(t, now, p)
  {
    var id := t.request.id;
    var t' := Past(t, now);
    match (|t.times|, row)
    case (0, BookingRow(b)) =>        // SELECT ... FROM bookings ... FOR UPDATE
      if b.status.Purchased? then Ready(t', Done(b))
      else if !b.status.Reserved? then Abort(BookingNotReserved)
      else if now > b.expiresAt then Abort(BookingExpired)
      else More(t'.(booking := Some(b)))
    case (0, _) => Abort(BookingNotFound)
    case (1, BookingRow(b)) =>        // UPDATE bookings ... AND status = reserved AND expires_at > CURRENT_TIMESTAMP
      if b.status.Reserved? && b.expiresAt > t.start then
        More(PutBooking(t', id, b.(status := Purchased, purchasedAt := Some(t.start))))
      else
        Abort(BookingNotReserved)
    case (1, _) => Abort(BookingNotReserved)
    case (_, _) =>                    // UPDATE seats
      var done := Done(Seen(t).(status := Purchased, purchasedAt := Some(t.start)));
      if row.SeatRow? then Ready(PutSeat(t', Seen(t).seat, Seat(Sold, None)), done) else Ready(t', done)
  }

  function RevertStep(t: Txn, row: Row, now: Time): (p: Progress)
    requires t.request.Revert?
    ensures Advances(t, now, p)
  {
    var t' := Past(t, now);
    match (|t.times|, row)
    case (0, BookingRow(b)) =>        // SELECT ... FROM bookings ... FOR UPDATE
      if b.status.Purchased? then More(t'.(booking := Some(b))) else Abort(BookingNotPurchased)
    case (0, _) => Abort(BookingNotFound)
    case (1, BookingRow(b)) =>        // UPDATE bookings ... AND status = purchased
      if b.status.Purchased? then
        More(PutBooking(t', t.request.id, b.(status := Cancelled, purchasedAt := None, intent := None)))
      else
        Abort(BookingNotPurchased)
    case (1, _) => Abort(BookingNotPurchased)
    case (2, SeatRow(seat)) =>        // UPDATE seats ... AND status = sold
      More(if seat.status.Sold? then PutSeat(t', Seen(t).seat, FREE) else t')
    case (2, _) => More(t')
    case (_, _) =>                    // UPDATE events SET available_seats = available_seats + 1
      var done := Done(Seen(t).(status := Cancelled, purchasedAt := None, intent := None));
      if row.EventRow? then
        Ready(PutEvent(t', Seen(t).event, row.event.(available := row.event.available + 1)), done)
      else
        Ready(t', done)
  }

  function ReleaseStep(t: Txn, row: Row, now: Time): (p: Progress)
    requires t.request.Expire? || t.request.Cancel?
    ensures Advances(t, now, p)
  {
    var requireExpired := t.request.Expire?;
    var status := if requireExpired then BookingStatus.Expired else Cancelled;
    var t' := Past(t, now);
    match (|t.times|, row)
    case (0, BookingRow(b)) =>        // SELECT ... FROM bookings ... FOR UPDATE
      if !b.status.Reserved? then Abort(BookingNotReserved)
      else if requireExpired && now < b.expiresAt then Abort(BookingNotReserved)
      else More(t'.(booking := Some(b)))
    case (0, _) => Abort(BookingNotFound)
    case (1, BookingRow(b)) =>        // UPDATE bookings ... AND status = reserved [AND expires_at <= CURRENT_TIMESTAMP]
      if b.status.Reserved? && (requireExpired ==> b.expiresAt <= t.start) then
        More(PutBooking(t', t.request.id, b.(status := status)))
      else
        Abort(BookingNotReserved)
    case (1, _) => Abort(BookingNotReserved)
    case (2, SeatRow(_)) =>           // UPDATE seats
      More(PutSeat(t', Seen(t).seat, FREE))
    case (2, _) => More(t')
    case (_, _) =>                    // UPDATE events SET available_seats = available_seats + 1
      var done := Done(Seen(t).(status := status));
      if row.EventRow? then
        Ready(PutEvent(t', Seen(t).event, row.event.(available := row.event.available + 1)), done)
      else
        Ready(t', done)
  }

  /** Event creation only inserts rows; it is not run statement by statement. */
  predicate OnBooking(r: Request) {
    !r.CreateEvent? && !r.SeedSeats?
  }

  function Step(t: Txn, row: Row, now: Time): (p: Progress)
    requires OnBooking(t.request)
    ensures Advances(t, now, p)
  {
    match t.request
    case Reserve(_, _, _, _, _) => ReserveStep(t, row, now)
    case SetIntent(_, _) => SetIntentStep(t, row, now)
    case Extend(_, _, _) => ExtendStep(t, row, now)
    case Complete(_) => CompleteStep(t, row, now)
    case Revert(_) => RevertStep(t, row, now)
    case Expire(_) => ReleaseStep(t, row, now)
    case Cancel(_) => ReleaseStep(t, row, now)
  }

  /** One statement against committed tables `db`, seen through the transaction's own writes. */
  function Exec(t: Txn, db: Db, now: Time): (p: Progress)
    requires OnBooking(t.request)
    ensures Advances(t, now, p)
  {
    Step(t, Look(Overlay(db, t.writes), NextKey(t)), now)
  }

  // ---------------------------------------------------------------- one transaction alone

  lemma FrontAndLast(times: seq<Time>)
    requires times != []
    ensures times[..|times| - 1] + [times[|times| - 1]] == times
  {
  }

  /** A transaction run with nobody else around, reading the clock `times`. */
  function Solo(request: Request, start: Time, times: seq<Time>, db: Db): (p: Progress)
    requires OnBooking(request)
    ensures !p.Abort? ==> p.txn.request == request && p.txn.start == start && |p.txn.times| <= |times|
    ensures p.More? ==> p.txn.times == times
  {
    if times == [] then
      More(Begin(request, start))
    else
      FrontAndLast(times);
      match Solo(request, start, times[..|times| - 1], db)
      case More(t) => Exec(t, db, times[|times| - 1])
      case p => p
  }

  /** The `i`-th clock reading, or the last one if there are not so many. */
  function Reading(start: Time, times: seq<Time>, i: nat): Time {
    if i < |times| then times[i] else if times == [] then start else times[|times| - 1]
  }

  /** The clock an atomic transaction would have to be shown to match the readings `times`. */
  function ClockOf(request: Request, start: Time, times: seq<Time>): Clock {
    if request.Reserve? then
      Clock(start, Reading(start, times, 1), Reading(start, times, 1))
    else
      Clock(start, Reading(start, times, 0), Reading(start, times, 1))
  }

  function OpOf(request: Request, start: Time, times: seq<Time>): Op {
    Op(request, ClockOf(request, start, times))
  }

  // ---------------------------------------------------------------- what a lone transaction is doing

  /** The row the code read and decided on, as it stands in `db`. */
  ghost predicate Selected(db: Db, t: Txn)
    requires OnBooking(t.request)
  {
    t.request.id in db.bookings && t.booking == Some(db.bookings[t.request.id])
  }

  function OneBooking(id: BookingId, b: Booking): Db {
    Db(map[], map[], map[id := b])
  }

  function OneSeat(hit: bool, s: SeatId, row: Seat): map<SeatId, Seat> {
    if hit then map[s := row] else map[]
  }

  ghost predicate ReserveMid(db: Db, t: Txn)
    requires t.request.Reserve?
  {
    var Reserve(user, e, number, until, id) := t.request;
    var s, n := SeatId(e, number), |t.times|;
    && n <= 3
    && t.held == (if n >= 1 then {EventKey(e)} else {}) + (if n >= 2 then {SeatKey(s)} else {})
    && (n == 0 ==> t.writes == EMPTY)
    && (n >= 1 ==>
          && e in db.events && db.events[e].available > 0 && t.price == db.events[e].price
          && t.writes == Db(map[e := db.events[e].(available := db.events[e].available - 1)],
                            if n == 3 then map[s := Seat(SeatStatus.Reserved, Some(until))] else map[], map[]))
    && (n >= 2 ==>
          && s in db.seats && db.seats[s].status.Available?
          && (db.seats[s].reservedUntil.Some? ==> t.times[1] >= db.seats[s].reservedUntil.value))
  }

  ghost predicate ExtendMid(db: Db, t: Txn)
    requires t.request.Extend?
  {
    var Extend(id, until, entered) := t.request;
    var n := |t.times|;
    && n <= 3
    && (n == 0 ==> t.held == {} && t.writes == EMPTY)
    && (n >= 1 ==>
          && until > entered && id in db.bookings && db.bookings[id].status.Reserved?
          && t.times[0] <= db.bookings[id].expiresAt
          && t.held == {BookingKey(id)} + (if n >= 2 then {SeatKey(db.bookings[id].seat)} else {})
          && var b := db.bookings[id];
             var b' := b.(expiresAt := if until > b.expiresAt then until else b.expiresAt);
             && t.booking == Some(if n == 1 then b else b')
             && (n >= 2 ==>
                   && b.seat in db.seats && b.seat.event == b.event && db.seats[b.seat].status.Reserved?
                   && (db.seats[b.seat].reservedUntil.Some? ==> t.times[1] <= db.seats[b.seat].reservedUntil.value))
             && (n == 3 ==> b.expiresAt > t.start)
             && t.writes == if n == 3 then OneBooking(id, b') else EMPTY)
  }

  ghost predicate CompleteMid(db: Db, t: Txn)
    requires t.request.Complete?
  {
    var id, n := t.request.id, |t.times|;
    && n <= 2
    && (n == 0 ==> t.held == {} && t.writes == EMPTY)
    && (n >= 1 ==>
          && Selected(db, t) && t.held == {BookingKey(id)}
          && var b := db.bookings[id];
             && b.status.Reserved? && t.times[0] <= b.expiresAt
             && (n == 2 ==> b.expiresAt > t.start)
             && t.writes ==
                if n == 2 then OneBooking(id, b.(status := Purchased, purchasedAt := Some(t.start))) else EMPTY)
  }

  ghost predicate RevertMid(db: Db, t: Txn)
    requires t.request.Revert?
  {
    var id, n := t.request.id, |t.times|;
    && n <= 3
    && (n == 0 ==> t.held == {} && t.writes == EMPTY)
    && (n >= 1 ==>
          && Selected(db, t) && t.held == {BookingKey(id)} + (if n == 3 then {SeatKey(db.bookings[id].seat)} else {})
          && var b := db.bookings[id];
             && b.status.Purchased?
             && (n == 1 ==> t.writes == EMPTY)
             && (n >= 2 ==>
                   t.writes == OneBooking(id, b.(status := Cancelled, purchasedAt := None, intent := None)).(
                     seats := OneSeat(n == 3 && b.seat in db.seats && db.seats[b.seat].status.Sold?, b.seat, FREE))))
  }

  ghost predicate ReleaseMid(db: Db, t: Txn)
    requires t.request.Expire? || t.request.Cancel?
  {
    var id, n, requireExpired := t.request.id, |t.times|, t.request.Expire?;
    && n <= 3
    && (n == 0 ==> t.held == {} && t.writes == EMPTY)
    && (n >= 1 ==>
          && Selected(db, t) && t.held == {BookingKey(id)} + (if n == 3 then {SeatKey(db.bookings[id].seat)} else {})
          && var b := db.bookings[id];
             && b.status.Reserved?
             && (requireExpired ==> t.times[0] >= b.expiresAt)
             && (requireExpired && n >= 2 ==> b.expiresAt <= t.start)
             && (n == 1 ==> t.writes == EMPTY)
             && (n >= 2 ==>
                   var status := if requireExpired then BookingStatus.Expired else Cancelled;
                   t.writes == OneBooking(id, b.(status := status)).(
                     seats := OneSeat(n == 3 && b.seat in db.seats, b.seat, FREE))))
  }

  /** What is known of a transaction that has run alone on `db` and is not finished. */
  ghost predicate Mid(db: Db, t: Txn)
    requires OnBooking(t.request)
  {
    match t.request
    case Reserve(_, _, _, _, _) => ReserveMid(db, t)
    case SetIntent(_, _) => t.times == [] && t.held == {} && t.writes == EMPTY
    case Extend(_, _, _) => ExtendMid(db, t)
    case Complete(_) => CompleteMid(db, t)
    case Revert(_) => RevertMid(db, t)
    case Expire(_) => ReleaseMid(db, t)
    case Cancel(_) => ReleaseMid(db, t)
  }

  /** A finished transaction did, and answered, what the atomic transaction `op` does and answers. */
  ghost predicate AsAtomic(db: Db, op: Op, p: Progress) {
    match p
    case More(t) => OnBooking(t.request) && Mid(db, t)
    case Ready(t, reply) => Apply(db, op) == Effect(Overlay(db, t.writes), reply)
    case Abort(e) => Apply(db, op) == Effect(db, Failed(e))
  }

  ghost predicate MatchesAtomic(db: Db, t: Txn, now: Time, p: Progress) {
    AsAtomic(db, OpOf(t.request, t.start, t.times + [now]), p)
  }

  lemma ReserveLast(db: Db, t: Txn, now: Time)
    requires t.request.Reserve? && Mid(db, t) && |t.times| == 3
    ensures MatchesAtomic(db, t, now, Exec(t, db, now))
  {
  }

  lemma ReserveSim(db: Db, t: Txn, now: Time)
    requires t.request.Reserve? && Mid(db, t)
    ensures MatchesAtomic(db, t, now, Exec(t, db, now))
  {
    if |t.times| == 3 {
      ReserveLast(db, t, now);
    } else if |t.times| == 0 {
    } else {
    }
  }

  lemma SetIntentSim(db: Db, t: Txn, now: Time)
    requires t.request.SetIntent? && Mid(db, t)
    ensures MatchesAtomic(db, t, now, Exec(t, db, now))
  {
  }

  lemma ExtendLast(db: Db, t: Txn, now: Time)
    requires t.request.Extend? && Mid(db, t) && |t.times| == 3
    ensures MatchesAtomic(db, t, now, Exec(t, db, now))
  {
  }

  lemma ExtendSim(db: Db, t: Txn, now: Time)
    requires t.request.Extend? && Mid(db, t)
    ensures MatchesAtomic(db, t, now, Exec(t, db, now))
  {
    if |t.times| == 3 {
      ExtendLast(db, t, now);
    } else if |t.times| == 0 {
    } else {
    }
  }

  lemma CompleteLast(db: Db, t: Txn, now: Time)
    requires t.request.Complete? && Mid(db, t) && |t.times| == 2
    ensures MatchesAtomic(db, t, now, Exec(t, db, now))
  {
  }

  lemma CompleteSim(db: Db, t: Txn, now: Time)
    requires t.request.Complete? && Mid(db, t)
    ensures MatchesAtomic(db, t, now, Exec(t, db, now))
  {
    if |t.times| == 2 {
      CompleteLast(db, t, now);
    } else if |t.times| == 0 {
    } else {
    }
  }

  lemma OverlayBooking(db: Db, id: BookingId, b: Booking, s: SeatId, row: Seat, hit: bool)
    requires hit ==> s in db.seats
    ensures Overlay(db, OneBooking(id, b).(seats := OneSeat(hit, s, row)))
         == if hit then WriteSeat(WriteBooking(db, id, b), s, row) else WriteBooking(db, id, b)
  {
    assert db.events + map[] == db.events;
    assert db.seats + map[] == db.seats;
  }

  lemma OverlayCounter(db: Db, t: Txn, now: Time, e: EventId)
    requires OnBooking(t.request) && t.writes.events == map[] && NextKey(t) == EventKey(e)
    ensures var row := Look(Overlay(db, t.writes), EventKey(e));
            var t' := Past(t, now);
            var t'' := if row.EventRow? then PutEvent(t', e, row.event.(available := row.event.available + 1)) else t';
            Overlay(db, t''.writes) == AddAvailable(Overlay(db, t.writes), e, 1)
  {
    assert db.events + map[] == db.events;
  }

  lemma RevertLast(db: Db, t: Txn, now: Time)
    requires t.request.Revert? && Mid(db, t) && |t.times| == 3
    ensures MatchesAtomic(db, t, now, Exec(t, db, now))
  {
    var b := db.bookings[t.request.id];
    var reverted := b.(status := Cancelled, purchasedAt := None, intent := None);
    OverlayBooking(db, t.request.id, reverted, b.seat, FREE, b.seat in db.seats && db.seats[b.seat].status.Sold?);
    OverlayCounter(db, t, now, b.event);
  }

  lemma RevertSim(db: Db, t: Txn, now: Time)
    requires t.request.Revert? && Mid(db, t)
    ensures MatchesAtomic(db, t, now, Exec(t, db, now))
  {
    if |t.times| == 3 {
      RevertLast(db, t, now);
    } else if |t.times| == 0 {
    } else {
    }
  }

  lemma ReleaseLast(db: Db, t: Txn, now: Time)
    requires (t.request.Expire? || t.request.Cancel?) && Mid(db, t) && |t.times| == 3
    ensures MatchesAtomic(db, t, now, Exec(t, db, now))
  {
    var status := if t.request.Expire? then BookingStatus.Expired else Cancelled;
    var b := db.bookings[t.request.id];
    OverlayBooking(db, t.request.id, b.(status := status), b.seat, FREE, b.seat in db.seats);
    OverlayCounter(db, t, now, b.event);
  }

  lemma ReleaseFirst(db: Db, t: Txn, now: Time)
    requires (t.request.Expire? || t.request.Cancel?) && Mid(db, t) && |t.times| == 0
    ensures MatchesAtomic(db, t, now, Exec(t, db, now))
  {
  }

  lemma ReleaseSim(db: Db, t: Txn, now: Time)
    requires (t.request.Expire? || t.request.Cancel?) && Mid(db, t)
    ensures MatchesAtomic(db, t, now, Exec(t, db, now))
  {
    if |t.times| == 3 {
      ReleaseLast(db, t, now);
    } else if |t.times| == 0 {
      ReleaseFirst(db, t, now);
    }
  }

  /** One more statement of a lone transaction. */
  lemma StatementSim(db: Db, t: Txn, now: Time)
    requires OnBooking(t.request) && Mid(db, t)
    ensures MatchesAtomic(db, t, now, Exec(t, db, now))
  {
    match t.request
    case Reserve(_, _, _, _, _) => ReserveSim(db, t, now);
    case SetIntent(_, _) => SetIntentSim(db, t, now);
    case Extend(_, _, _) => ExtendSim(db, t, now);
    case Complete(_) => CompleteSim(db, t, now);
    case Revert(_) => RevertSim(db, t, now);
    case Expire(_) => ReleaseSim(db, t, now);
    case Cancel(_) => ReleaseSim(db, t, now);
  }

  lemma {:induction false} SoloMid(request: Request, start: Time, times: seq<Time>, db: Db)
    requires OnBooking(request) && Solo(request, start, times, db).More?
    ensures Mid(db, Solo(request, start, times, db).txn)
  {
    if times != [] {
      var front := times[..|times| - 1];
      SoloMid(request, start, front, db);
      StatementSim(db, Solo(request, start, front, db).txn, times[|times| - 1]);
    }
  }

  lemma SoloSnoc(request: Request, start: Time, times: seq<Time>, db: Db)
    requires OnBooking(request) && times != []
    requires Solo(request, start, times[..|times| - 1], db).More?
    ensures var t := Solo(request, start, times[..|times| - 1], db).txn;
            Solo(request, start, times, db) == Exec(t, db, times[|times| - 1])
  {
  }

  /**
   A transaction that ran alone, statement by statement, and became ready has prepared exactly the
   rows, and the reply, of the atomic transaction.
   */
  lemma SoloIsAtomic(request: Request, start: Time, times: seq<Time>, db: Db)
    requires OnBooking(request) && times != []
    requires Solo(request, start, times[..|times| - 1], db).More?
    ensures AsAtomic(db, OpOf(request, start, times), Solo(request, start, times, db))
  {
    var front, now := times[..|times| - 1], times[|times| - 1];
    FrontAndLast(times);
    var t := Solo(request, start, front, db).txn;
    assert MatchesAtomic(db, t, now, Exec(t, db, now)) by {
      SoloMid(request, start, front, db);
      StatementSim(db, t, now);
    }
    SoloSnoc(request, start, times, db);
    AtomicOf(db, t, now, Solo(request, start, times, db), request, start, times);
  }

  lemma AtomicOf(db: Db, t: Txn, now: Time, p: Progress, request: Request, start: Time, times: seq<Time>)
    requires OnBooking(request) && MatchesAtomic(db, t, now, p)
    requires t.request == request && t.start == start && t.times + [now] == times
    ensures AsAtomic(db, OpOf(request, start, times), p)
  {
  }

  // ---------------------------------------------------------------- interference

  /** Two tables hold the same version of every row in `keys`. */
  ghost predicate SameRows(keys: set<Key>, db: Db, db': Db) {
    forall k <- keys :: Look(db, k) == Look(db', k)
  }

  lemma ExecStable(t: Txn, db: Db, db': Db, now: Time)
    requires OnBooking(t.request) && Look(db, NextKey(t)) == Look(db', NextKey(t))
    ensures Exec(t, db, now) == Exec(t, db', now)
  {
    var k := NextKey(t);
    assert Look(Overlay(db, t.writes), k) == Look(Overlay(db', t.writes), k);
  }

  lemma SoloLast(request: Request, start: Time, times: seq<Time>, db: Db)
    requires OnBooking(request) && times != [] && !Solo(request, start, times, db).Abort?
    ensures var p := Solo(request, start, times[..|times| - 1], db);
            && !p.Abort?
            && (p.More? ==>
                  && Solo(request, start, times, db) == Exec(p.txn, db, times[|times| - 1])
                  && Solo(request, start, times, db).txn.held == p.txn.held + {NextKey(p.txn)})
            && (p.Ready? ==> Solo(request, start, times, db) == p)
  {
  }

  /** Whatever happens to rows it has not locked, a lone transaction proceeds the same way. */
  lemma {:induction false} SoloStable(request: Request, start: Time, times: seq<Time>, db: Db, db': Db)
    requires OnBooking(request) && !Solo(request, start, times, db).Abort?
    requires SameRows(Solo(request, start, times, db).txn.held, db, db')
    ensures Solo(request, start, times, db') == Solo(request, start, times, db)
  {
    if times != [] {
      var front, now := times[..|times| - 1], times[|times| - 1];
      var p := Solo(request, start, front, db);
      SoloLast(request, start, times, db);
      SoloStable(request, start, front, db, db');
      if p.More? {
        ExecStable(p.txn, db, db', now);
      }
    }
  }

  lemma MidInRange(db: Db, t: Txn)
    requires OnBooking(t.request) && Mid(db, t)
    ensures |t.times| < Statements(t.request)
  {
  }

  ghost predicate WritesLocked(t: Txn) {
    forall k :: Writes(t.writes, k) ==> k in t.held
  }

  lemma DiffersLocked(t: Txn, t': Txn, k: Key)
    requires WritesLocked(t) && DiffersAt(t.writes, t'.writes, k) && t'.held == t.held + {k}
    ensures WritesLocked(t')
  {
    forall x | Writes(t'.writes, x) ensures x in t'.held {
      assert x == k || Writes(t.writes, x);
    }
  }

  /** A transaction writes only rows it has locked. */
  lemma {:induction false} SoloWritesLocked(request: Request, start: Time, times: seq<Time>, db: Db)
    requires OnBooking(request) && !Solo(request, start, times, db).Abort?
    ensures WritesLocked(Solo(request, start, times, db).txn)
  {
    if times != [] {
      var front := times[..|times| - 1];
      SoloLast(request, start, times, db);
      SoloWritesLocked(request, start, front, db);
      var p := Solo(request, start, front, db);
      if p.More? {
        SoloMid(request, start, front, db);
        MidInRange(db, p.txn);
        DiffersLocked(p.txn, Solo(request, start, times, db).txn, NextKey(p.txn));
      }
    }
  }

  /** Committing row versions changes no other row. */
  lemma OverlayChanges(db: Db, w: Db, k: Key)
    ensures Look(Overlay(db, w), k) == if Writes(w, k) then Look(w, k) else Look(db, k)
  {
  }

  /** A locked row exists, unless it is the booking the transaction itself inserts. */
  ghost predicate LocksExist(db: Db, t: Txn) {
    forall k <- t.held :: !Look(db, k).Missing? || (t.request.Reserve? && k == BookingKey(t.request.id))
  }

  lemma NextLockExists(db: Db, t: Txn, now: Time)
    requires OnBooking(t.request) && RowsLinked(db) && Mid(db, t) && !Exec(t, db, now).Abort?
    ensures !Look(db, NextKey(t)).Missing? || (t.request.Reserve? && NextKey(t) == BookingKey(t.request.id))
  {
  }

  lemma SoloLocksExist(request: Request, start: Time, times: seq<Time>, db: Db)
    requires OnBooking(request) && RowsLinked(db) && !Solo(request, start, times, db).Abort?
    ensures LocksExist(db, Solo(request, start, times, db).txn)
  {
    if times != [] {
      var front := times[..|times| - 1];
      SoloLast(request, start, times, db);
      SoloLocksExist(request, start, front, db);
      var p := Solo(request, start, front, db);
      if p.More? {
        SoloMid(request, start, front, db);
        NextLockExists(db, p.txn, times[|times| - 1]);
      }
    }
  }
}
