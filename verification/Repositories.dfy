/**
 The repositories as they are written: each method updates the tables statement by statement and
 restores them when a later statement fails. Every method is proved against the transaction of
 `Ledger` it carries out.
 */
module Repositories {
  import opened Prelude
  import opened SeatNumbers
  import opened Ledger
  import opened LedgerRuns

  class Repository {
    var events: map<EventId, Event>
    var seats: map<SeatId, Seat>
    var bookings: map<BookingId, Booking>

    function Tables(): Db
      reads this
    {
      Db(events, seats, bookings)
    }

    constructor ()
      ensures Tables() == EMPTY
    {
      events, seats, bookings := map[], map[], map[];
    }

    method Rollback(saved: Db)
      modifies this
      ensures Tables() == saved
    {
      events, seats, bookings := saved.events, saved.seats, saved.bookings;
    }

    /** EventRepository.Create, the first transaction of event creation. */
    method CreateEvent(e: EventId, total: nat, price: real) returns (reply: Reply)
      modifies this
      ensures Effect(Tables(), reply) == CreateEventTx(old(Tables()), e, total, price)
      ensures reply.Created? <==> e !in old(events)
      ensures reply.Created? ==>
                e in events && events[e].total == events[e].available == total && events[e].price == price
      ensures reply.Failed? ==> Tables() == old(Tables())
    {
      if e in events {
        return Failed(UniqueViolation);
      }
      events := events[e := Event(total, total, price)];
      reply := Created;
    }

    /** SeatRepository.CreateBulkSeats: one insert per seat, all or nothing. */
    method CreateBulkSeats(e: EventId) returns (reply: Reply)
      modifies this
      ensures Effect(Tables(), reply) == SeedSeatsTx(old(Tables()), e)
      ensures reply.Failed? ==> Tables() == old(Tables())
    {
      if e !in events {
        return Failed(EventNotFound);
      }
      var saved := Tables();
      var total := events[e].total;
      SeedStart(saved, e);
      for i := 1 to total + 1
        invariant SeededUpTo(Tables(), saved, e, i - 1)
      {
        var s := SeatId(e, FormatSeatNumber(i));
        if s in seats {
          SeedConflict(Tables(), saved, e, i);
          Rollback(saved);
          return Failed(UniqueViolation);
        }
        SeedStep(Tables(), saved, e, i);
        seats := seats[s := FREE];
      }
      reply := Created;
    }

    method CreateReservation(user: UserId, e: EventId, number: string, until: Time, c: Clock, id: BookingId)
      returns (reply: Reply)
      modifies this
      ensures Effect(Tables(), reply) == ReserveTx(old(Tables()), c, user, e, number, until, id)
      ensures reply.Failed? ==> Tables() == old(Tables())
    {
      var saved := Tables();
      if e !in events {
        return Failed(EventNotFound);
      }
      if events[e].available <= 0 {
        return Failed(NoAvailableSeats);
      }
      events := events[e := events[e].(available := events[e].available - 1)];
      var price := events[e].price;
      var failure := ReserveSeat(SeatId(e, number), until, c.first);
      match failure {
        case Some(error) =>
          Rollback(saved);
          return Failed(error);
        case None =>
      }
      if id in bookings {
        Rollback(saved);
        return Failed(UniqueViolation);
      }
      var b := Booking(user, e, SeatId(e, number), BookingStatus.Reserved, price, until, None, None);
      bookings := bookings[id := b];
      reply := Done(b);
    }

    /** reserveSeatTx: the seat must be available and not held past `now`. */
    method ReserveSeat(s: SeatId, until: Time, now: Time) returns (failure: Option<Error>)
      modifies this`seats
      ensures failure.None? <==>
                && s in old(seats) && old(seats)[s].status.Available?
                && (old(seats)[s].reservedUntil.Some? ==> old(seats)[s].reservedUntil.value <= now)
      ensures failure.None? ==> seats == old(seats)[s := Seat(SeatStatus.Reserved, Some(until))]
      ensures failure.Some? ==> seats == old(seats)
      ensures failure.Some? ==> failure.value == if s in old(seats) then SeatNotAvailable else SeatNotFound
    {
      if s !in seats {
        return Some(SeatNotFound);
      }
      if !seats[s].status.Available? {
        return Some(SeatNotAvailable);
      }
      if seats[s].reservedUntil.Some? && now < seats[s].reservedUntil.value {
        return Some(SeatNotAvailable);
      }
      seats := seats[s := Seat(SeatStatus.Reserved, Some(until))];
      failure := None;
    }

    method SetPaymentIntentID(id: BookingId, intent: string) returns (reply: Reply)
      modifies this`bookings
      ensures Effect(Tables(), reply) == SetIntentTx(old(Tables()), id, intent)
    {
      var affected := false;
      if id in bookings && bookings[id].Live() && bookings[id].intent.None? {
        bookings := bookings[id := bookings[id].(intent := if intent == "" then None else Some(intent))];
        affected := true;
      }
      if id !in bookings {
        return Failed(BookingNotFound);
      }
      if !affected && bookings[id].intent.None? {
        return Failed(BookingNotReserved);
      }
      reply := Done(bookings[id]);
    }

    method ExtendReservation(id: BookingId, until: Time, entered: Time, c: Clock) returns (reply: Reply)
      modifies this
      ensures Effect(Tables(), reply) == ExtendTx(old(Tables()), c, id, until, entered)
      ensures reply.Failed? ==> Tables() == old(Tables())
    {
      if until <= entered {
        return Failed(BookingExpired);
      }
      if id !in bookings {
        return Failed(BookingNotFound);
      }
      var booking := bookings[id];
      if !booking.status.Reserved? {
        return Failed(BookingNotReserved);
      }
      if c.first > booking.expiresAt {
        return Failed(BookingExpired);
      }
      if booking.seat !in seats {
        return Failed(SeatNotFound);
      }
      var seat := seats[booking.seat];
      if booking.seat.event != booking.event || !seat.status.Reserved? {
        return Failed(SeatNotAvailable);
      }
      if seat.reservedUntil.Some? && c.second > seat.reservedUntil.value {
        return Failed(SeatNotAvailable);
      }
      var newExpiresAt := booking.expiresAt;
      if until > newExpiresAt {
        newExpiresAt := until;
      }
      if !(bookings[id].status.Reserved? && bookings[id].expiresAt > c.start) {
        return Failed(BookingNotReserved);
      }
      bookings := bookings[id := bookings[id].(expiresAt := newExpiresAt)];
      // the seat is locked since it was found reserved, so the guard of its update holds
      seats := seats[booking.seat := seats[booking.seat].(reservedUntil := Some(newExpiresAt))];
      reply := Done(booking.(expiresAt := newExpiresAt));
    }

    method CompletePurchase(id: BookingId, c: Clock) returns (reply: Reply)
      modifies this
      ensures Effect(Tables(), reply) == CompleteTx(old(Tables()), c, id)
      ensures reply.Failed? ==> Tables() == old(Tables())
    {
      if id !in bookings {
        return Failed(BookingNotFound);
      }
      var booking := bookings[id];
      if booking.status.Purchased? {
        return Done(booking);
      }
      if !booking.status.Reserved? {
        return Failed(BookingNotReserved);
      }
      if c.first > booking.expiresAt {
        return Failed(BookingExpired);
      }
      if !(booking.expiresAt > c.start) {
        return Failed(BookingNotReserved);
      }
      bookings := bookings[id := booking.(status := Purchased, purchasedAt := Some(c.start))];
      UpdateSeat(booking.seat, Seat(Sold, None));
      reply := Done(booking.(status := Purchased, purchasedAt := Some(c.start)));
    }

    method RevertFailedPurchase(id: BookingId) returns (reply: Reply)
      modifies this
      ensures Effect(Tables(), reply) == RevertTx(old(Tables()), id)
      ensures reply.Failed? ==> Tables() == old(Tables())
    {
      if id !in bookings {
        return Failed(BookingNotFound);
      }
      var booking := bookings[id];
      if !booking.status.Purchased? {
        return Failed(BookingNotPurchased);
      }
      bookings := bookings[id := booking.(status := Cancelled, purchasedAt := None, intent := None)];
      if booking.seat in seats && seats[booking.seat].status.Sold? {
        UpdateSeat(booking.seat, FREE);
      }
      ReturnSeatToCounter(booking.event);
      reply := Done(booking.(status := Cancelled, purchasedAt := None, intent := None));
    }

    method ReleaseReservation(id: BookingId, status: BookingStatus, requireExpired: bool, c: Clock)
      returns (reply: Reply)
      modifies this
      ensures Effect(Tables(), reply) == ReleaseTx(old(Tables()), c, id, status, requireExpired)
      ensures reply.Failed? ==> Tables() == old(Tables())
    {
      if id !in bookings {
        return Failed(BookingNotFound);
      }
      var booking := bookings[id];
      if !booking.status.Reserved? {
        return Failed(BookingNotReserved);
      }
      if requireExpired && c.first < booking.expiresAt {
        return Failed(BookingNotReserved);
      }
      if requireExpired && !(booking.expiresAt <= c.start) {
        return Failed(BookingNotReserved);
      }
      bookings := bookings[id := booking.(status := status)];
      UpdateSeat(booking.seat, FREE);
      ReturnSeatToCounter(booking.event);
      reply := Done(booking.(status := status));
    }

    method UpdateSeat(s: SeatId, row: Seat)
      modifies this`seats
      ensures Tables() == WriteSeat(old(Tables()), s, row)
    {
      if s in seats {
        seats := seats[s := row];
      }
    }

    method ReturnSeatToCounter(e: EventId)
      modifies this`events
      ensures Tables() == AddAvailable(old(Tables()), e, 1)
    {
      if e in events {
        events := events[e := events[e].(available := events[e].available + 1)];
      }
    }

    /** The reserved bookings whose deadline lies before `query`, in no particular order. */
    method FindExpiredReservations(query: Time) returns (found: seq<BookingId>)
      ensures forall id :: id in found <==>
                id in bookings && bookings[id].status.Reserved? && bookings[id].expiresAt < query
      ensures forall i, j :: 0 <= i < j < |found| ==> found[i] != found[j]
    {
      found := [];
      var rows := bookings.Keys;
      while rows != {}
        invariant rows <= bookings.Keys
        invariant forall id :: id in found <==> id in bookings && id !in rows && Overdue(bookings[id], query)
        invariant forall i, j :: 0 <= i < j < |found| ==> found[i] != found[j]
        decreases rows
      {
        var id :| id in rows;
        rows := rows - {id};
        if Overdue(bookings[id], query) {
          found := found + [id];
        }
      }
    }
  }

  /** The first `n` seats of event `e` have been added to the tables `saved`. */
  ghost predicate SeededUpTo(db: Db, saved: Db, e: EventId, n: nat) {
    && SeatBlock(e, n) !! saved.seats.Keys
    && db == saved.(seats := saved.seats + FreeSeats(SeatBlock(e, n)))
  }

  lemma SeedStart(saved: Db, e: EventId)
    ensures SeededUpTo(saved, saved, e, 0)
  {
    assert SeatBlock(e, 0) == {};
    assert saved.seats + FreeSeats(SeatBlock(e, 0)) == saved.seats;
  }

  lemma SeatBlockGrows(e: EventId, i: nat)
    requires i >= 1
    ensures SeatBlock(e, i) == SeatBlock(e, i - 1) + {SeatId(e, FormatSeatNumber(i))}
    ensures SeatId(e, FormatSeatNumber(i)) !in SeatBlock(e, i - 1)
  {
    forall j: nat | 1 <= j <= i - 1 ensures FormatSeatNumber(j) != FormatSeatNumber(i) {
      if FormatSeatNumber(j) == FormatSeatNumber(i) { SeatNumbersDistinct(j, i); }
    }
  }

  lemma FreeSeatsAdd(seats: map<SeatId, Seat>, block: set<SeatId>, s: SeatId)
    ensures seats + FreeSeats(block + {s}) == (seats + FreeSeats(block))[s := FREE]
  {
  }

  lemma SeedStep(db: Db, saved: Db, e: EventId, i: nat)
    requires i >= 1 && SeededUpTo(db, saved, e, i - 1) && SeatId(e, FormatSeatNumber(i)) !in db.seats
    ensures SeededUpTo(db.(seats := db.seats[SeatId(e, FormatSeatNumber(i)) := FREE]), saved, e, i)
  {
    var s := SeatId(e, FormatSeatNumber(i));
    SeatBlockGrows(e, i);
    FreeSeatsAdd(saved.seats, SeatBlock(e, i - 1), s);
  }

  /** A seat number already present can only have been there before. */
  lemma SeedConflict(db: Db, saved: Db, e: EventId, i: nat)
    requires e in saved.events && 1 <= i <= saved.events[e].total
    requires SeededUpTo(db, saved, e, i - 1) && SeatId(e, FormatSeatNumber(i)) in db.seats
    ensures SeedSeatsTx(saved, e) == Effect(saved, Failed(UniqueViolation))
  {
    SeatBlockGrows(e, i);
    assert SeatId(e, FormatSeatNumber(i)) in SeatBlock(e, saved.events[e].total);
  }

  predicate Overdue(b: Booking, query: Time) {
    b.status.Reserved? && b.expiresAt < query
  }
}
