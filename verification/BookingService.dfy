/** The sequential parts of the booking service: the sweep, the release by id, the chunking and the seat summary. */
module BookingService {
  import opened Ledger
  import opened LedgerRuns
  import opened Repositories

  /** The bookings with every overdue one marked expired. */
  function Swept(bookings: map<BookingId, Booking>, query: Time): map<BookingId, Booking> {
    map id | id in bookings ::
      if Overdue(bookings[id], query) then bookings[id].(status := BookingStatus.Expired) else bookings[id]
  }

  /** Every overdue booking of `was` is expired, its seat is free, and no other booking changed. */
  ghost predicate SweptClean(db: Db, was: Db, query: Time) {
    && db.bookings == Swept(was.bookings, query)
    && db.seats.Keys == was.seats.Keys
    && forall id <- was.bookings :: Overdue(was.bookings[id], query) ==>
         was.bookings[id].seat in db.seats && db.seats[was.bookings[id].seat] == FREE
  }

  /**
   CleanupExpiredReservations. The query is made at time `query`; the `i`-th release then runs under
   the clock `clock(i)`. Nothing overdue is left, nothing else is touched, every seat comes back.
   */
  method CleanupExpiredReservations(repo: Repository, query: Time, clock: nat -> Clock)
    requires Inv(repo.Tables())
    requires forall i: nat :: clock(i).Monotone() && query <= clock(i).start
    modifies repo
    ensures Inv(repo.Tables()) && SweptClean(repo.Tables(), old(repo.Tables()), query)
  {
    var found := repo.FindExpiredReservations(query);
    ghost var was := repo.Tables();
    ghost var done := ReleaseAll(repo, found, query, clock);
    SweptAll(repo.Tables(), was, done, query);
  }

  /** The loop over what the query found. */
  method ReleaseAll(repo: Repository, found: seq<BookingId>, query: Time, clock: nat -> Clock)
    returns (ghost done: set<BookingId>)
    requires Inv(repo.Tables())
    requires forall id :: id in found ==> id in repo.bookings && Overdue(repo.bookings[id], query)
    requires forall i, j :: 0 <= i < j < |found| ==> found[i] != found[j]
    requires forall i: nat :: clock(i).Monotone() && query <= clock(i).start
    modifies repo
    ensures Inv(repo.Tables()) && SweptSoFar(repo.Tables(), old(repo.Tables()), done)
    ensures forall id :: id in done <==> id in found
  {
    ghost var was := repo.Tables();
    done := {};
    for i := 0 to |found|
      invariant Inv(repo.Tables()) && SweptSoFar(repo.Tables(), was, done)
      invariant forall id :: id in done <==> id in found[..i]
    {
      FoundNext(found, i);
      assert Overdue(was.bookings[found[i]], query);
      ReleaseExpiredBooking(repo, found[i], clock(i), was, done);
      done := done + {found[i]};
    }
    assert found[..|found|] == found;
  }

  lemma FoundNext(found: seq<BookingId>, i: nat)
    requires i < |found| && forall j, k :: 0 <= j < k < |found| ==> found[j] != found[k]
    ensures found[i] !in found[..i]
    ensures forall id :: id in found[..i + 1] <==> id in found[..i] || id == found[i]
  {
    assert found[..i + 1] == found[..i] + [found[i]];
  }

  /** Releases one booking the sweep found; `done` are the ones it has released already. */
  method ReleaseExpiredBooking(repo: Repository, id: BookingId, c: Clock, ghost was: Db, ghost done: set<BookingId>)
    requires Inv(repo.Tables()) && SweptSoFar(repo.Tables(), was, done) && id in was.bookings && id !in done
    requires was.bookings[id].status.Reserved? && was.bookings[id].expiresAt <= c.start && c.Monotone()
    modifies repo
    ensures Inv(repo.Tables()) && SweptSoFar(repo.Tables(), was, done + {id})
  {
    ghost var next := ReleaseTx(repo.Tables(), c, id, BookingStatus.Expired, true).db;
    ExpireKeepsInv(repo.Tables(), id, c);
    SeatExists(repo.Tables(), id);
    SweepRows(repo.Tables(), was, done, id, c);
    var _ := repo.ReleaseReservation(id, BookingStatus.Expired, true, c);
    assert repo.Tables() == next;
  }

  lemma SweptAll(db: Db, was: Db, done: set<BookingId>, query: Time)
    requires SweptSoFar(db, was, done)
    requires forall id :: id in done <==> id in was.bookings && Overdue(was.bookings[id], query)
    ensures SweptClean(db, was, query)
  {
  }

  /** Exactly the bookings `ids` of `was` have been expired and their seats freed. */
  ghost predicate SweptSoFar(db: Db, was: Db, ids: set<BookingId>) {
    && db.seats.Keys == was.seats.Keys && db.bookings.Keys == was.bookings.Keys
    && (forall id <- was.bookings ::
          db.bookings[id] == if id in ids then was.bookings[id].(status := BookingStatus.Expired) else was.bookings[id])
    && (forall id <- ids ::
          id in was.bookings && was.bookings[id].seat in db.seats && db.seats[was.bookings[id].seat] == FREE)
  }

  lemma SweepRows(db: Db, was: Db, ids: set<BookingId>, id: BookingId, c: Clock)
    requires SweptSoFar(db, was, ids) && id in was.bookings && id !in ids && was.bookings[id].seat in db.seats
    requires was.bookings[id].status.Reserved? && was.bookings[id].expiresAt <= c.start && c.Monotone()
    ensures SweptSoFar(ReleaseTx(db, c, id, BookingStatus.Expired, true).db, was, ids + {id})
  {
  }

  lemma ExpireKeepsInv(db: Db, id: BookingId, c: Clock)
    requires Inv(db)
    ensures Inv(ReleaseTx(db, c, id, BookingStatus.Expired, true).db)
  {
    var op := Op(Expire(id), c);
    assert Apply(db, op) == ReleaseTx(db, c, id, BookingStatus.Expired, true);
    ApplyKeepsInv(db, op);
  }

  lemma SeatExists(db: Db, id: BookingId)
    requires Inv(db) && id in db.bookings
    ensures db.bookings[id].seat in db.seats
  {
  }

  /** ReleaseExpiredBookingByID: unknown, finished and not yet expired bookings are all fine. */
  method ReleaseExpiredBookingByID(repo: Repository, id: BookingId, c: Clock) returns (released: bool)
    requires c.Monotone()
    modifies repo
    ensures released <==>
              && id in old(repo.bookings) && old(repo.bookings)[id].status.Reserved?
              && old(repo.bookings)[id].expiresAt <= c.start
    ensures repo.Tables() == if released then Apply(old(repo.Tables()), Op(Expire(id), c)).db else old(repo.Tables())
  {
    if id !in repo.bookings || !repo.bookings[id].status.Reserved? {
      return false;
    }
    var reply := repo.ReleaseReservation(id, BookingStatus.Expired, true, c);
    released := reply.Done?;
  }

  // ---------------------------------------------------------------- chunks

  function Flatten<T>(chunks: seq<seq<T>>): seq<T> {
    if chunks == [] then [] else Flatten(chunks[..|chunks| - 1]) + chunks[|chunks| - 1]
  }

  /** Consecutive, non-empty chunks of `size`, the last perhaps shorter, that are together all the seats in order. */
  predicate Cut<T(==)>(chunks: seq<seq<T>>, seats: seq<T>, size: nat) {
    && Flatten(chunks) == seats
    && (forall k :: 0 <= k < |chunks| ==> 0 < |chunks[k]| <= size)
    && forall k :: 0 <= k < |chunks| - 1 ==> |chunks[k]| == size
  }

  /** chunkSeats. */
  method ChunkSeats<T(==)>(seats: seq<T>, size: nat) returns (chunks: seq<seq<T>>)
    requires size > 0
    ensures Cut(chunks, seats, size)
  {
    chunks := [];
    var i := 0;
    while i < |seats|
      invariant 0 <= i && Flatten(chunks) == seats[..if i <= |seats| then i else |seats|]
      invariant i == |chunks| * size && i < |seats| + size
      invariant forall k :: 0 <= k < |chunks| ==> 0 < |chunks[k]| <= size
      invariant forall k :: 0 <= k < |chunks| - 1 ==> |chunks[k]| == size
      invariant i < |seats| && |chunks| > 0 ==> |chunks[|chunks| - 1]| == size
    {
      var end := i + size;
      if end > |seats| {
        end := |seats|;
      }
      assert (chunks + [seats[i..end]])[..|chunks|] == chunks;
      assert seats[..i] + seats[i..end] == seats[..end];
      chunks := chunks + [seats[i..end]];
      i := i + size;
    }
    assert seats[..|seats|] == seats;
  }

  // ---------------------------------------------------------------- the seat summary

  datatype SeatsSummary = SeatsSummary(total: nat, available: nat, reserved: nat, sold: nat)

  /** calculateSeatsSummary: one counter per status. */
  method CalculateSeatsSummary(rows: seq<SeatStatus>) returns (summary: SeatsSummary)
    ensures summary.total == |rows| == summary.available + summary.reserved + summary.sold
    ensures summary.available == multiset(rows)[SeatStatus.Available]
    ensures summary.reserved == multiset(rows)[SeatStatus.Reserved]
    ensures summary.sold == multiset(rows)[Sold]
  {
    summary := SeatsSummary(|rows|, 0, 0, 0);
    for i := 0 to |rows|
      invariant summary.total == |rows| && summary.available + summary.reserved + summary.sold == i
      invariant summary.available == multiset(rows[..i])[SeatStatus.Available]
      invariant summary.reserved == multiset(rows[..i])[SeatStatus.Reserved]
      invariant summary.sold == multiset(rows[..i])[Sold]
    {
      assert rows[..i + 1] == rows[..i] + [rows[i]];
      match rows[i] {
        case Available => summary := summary.(available := summary.available + 1);
        case Reserved => summary := summary.(reserved := summary.reserved + 1);
        case Sold => summary := summary.(sold := summary.sold + 1);
      }
    }
    assert rows[..|rows|] == rows;
  }

  /** The statuses of the seats listed in `rows`. */
  function Statuses(db: Db, rows: seq<SeatId>): seq<SeatStatus>
    requires forall s <- rows :: s in db.seats
  {
    if rows == [] then []
    else Statuses(db, rows[..|rows| - 1]) + [db.seats[rows[|rows| - 1]].status]
  }

  function Listed(db: Db, rows: seq<SeatId>, status: SeatStatus): set<SeatId> {
    set s | s in rows && s in db.seats && db.seats[s].status == status
  }

  lemma ListedSnoc(db: Db, rows: seq<SeatId>, s: SeatId, status: SeatStatus)
    requires s in db.seats && s !in rows
    ensures Listed(db, rows + [s], status)
         == if db.seats[s].status == status then Listed(db, rows, status) + {s} else Listed(db, rows, status)
    ensures s !in Listed(db, rows, status)
  {
  }

  lemma StatusesSnoc(db: Db, rows: seq<SeatId>, s: SeatId, status: SeatStatus)
    requires (forall r <- rows :: r in db.seats) && s in db.seats
    ensures multiset(Statuses(db, rows + [s]))[status]
         == multiset(Statuses(db, rows))[status] + if db.seats[s].status == status then 1 else 0
  {
    assert (rows + [s])[..|rows|] == rows;
    assert Statuses(db, rows + [s]) == Statuses(db, rows) + [db.seats[s].status];
  }

  /** Listing seats once each counts them as a set. */
  lemma {:induction false} StatusCount(db: Db, rows: seq<SeatId>, status: SeatStatus)
    requires forall s <- rows :: s in db.seats
    requires forall i, j :: 0 <= i < j < |rows| ==> rows[i] != rows[j]
    ensures multiset(Statuses(db, rows))[status] == |Listed(db, rows, status)|
  {
    if rows == [] {
      assert Listed(db, rows, status) == {};
    } else {
      var front, last := rows[..|rows| - 1], rows[|rows| - 1];
      assert rows == front + [last] && last !in front;
      StatusCount(db, front, status);
      StatusesSnoc(db, front, last, status);
      ListedSnoc(db, front, last, status);
    }
  }

  /**
   The summary of a full scan and the counter agree in every reachable state, once the seats of
   the event exist.
   */
  lemma {:induction false} SummaryAgreesWithCounter(ops: seq<Op>, e: EventId, rows: seq<SeatId>)
    requires e in Run(EMPTY, ops).events && rows != []
    requires forall s :: s in rows <==> s in SeatsOf(Run(EMPTY, ops), e)
    requires forall i, j :: 0 <= i < j < |rows| ==> rows[i] != rows[j]
    ensures var db := Run(EMPTY, ops);
            multiset(Statuses(db, rows))[SeatStatus.Available] == db.events[e].available
  {
    var db := Run(EMPTY, ops);
    CounterMeaning(ops, e);
    StatusCount(db, rows, SeatStatus.Available);
    assert rows[0] in SeatsOf(db, e);
    assert Listed(db, rows, SeatStatus.Available) == AvailableSeats(db, e);
  }
}
