/**
 Any number of booking transactions, interleaved statement by statement under row locks.
 Committed states are those of running the decided transactions one at a time, in commit order,
 and no set of transactions ever waits in a circle.
 */
module Interleaving {
  import opened Prelude
  import opened Ledger
  import opened LedgerRuns
  import opened RowLocks
  import opened WaitGraph

  type TxnId = nat

  /** A decided transaction and the reply its caller got. */
  datatype Entry = Entry(op: Op, reply: Reply)

  /** A transaction that was begun and not yet ended. */
  type Active = p: Progress | !p.Abort? && OnBooking(p.txn.request) witness More(Begin(Complete(0), 0))

  datatype System = System(db: Db, clock: Time, active: map<TxnId, Active>, log: seq<Entry>)

  const INIT := System(EMPTY, 0, map[], [])

  datatype Action =
    | Tick(now: Time)
    | BeginTxn(t: TxnId, request: Request)
    | Statement(t: TxnId)
    | Commit(t: TxnId)
    | Rollback(t: TxnId)          // any statement or the commit itself may fail
    | CreateRows(request: Request) // the transactions of event creation only insert rows

  /** The booking a reservation is going to insert. */
  function Inserts(p: Active): Option<BookingId> {
    if p.txn.request.Reserve? then Some(p.txn.request.id) else None
  }

  predicate HeldByOther(s: System, t: TxnId, k: Key) {
    exists u <- s.active :: u != t && k in s.active[u].txn.held
  }

  /** The next statement of `t` waits for a row locked by `u`. */
  predicate WaitsFor(s: System, t: TxnId, u: TxnId) {
    && t in s.active && u in s.active && t != u && s.active[t].More?
    && NextMode(s.active[t].txn) == Wait
    && NextKey(s.active[t].txn) in s.active[u].txn.held
  }

  predicate Blocked(s: System, t: TxnId) {
    exists u <- s.active :: WaitsFor(s, t, u)
  }

  /** `uuid.New()` yields an id no booking row and no other running reservation has. */
  predicate FreshId(s: System, id: BookingId) {
    && id !in s.db.bookings
    && forall u <- s.active :: Inserts(s.active[u]) != Some(id)
  }

  predicate Enabled(s: System, a: Action) {
    match a
    case Tick(now) => s.clock <= now
    case BeginTxn(t, r) => t !in s.active && OnBooking(r) && (r.Reserve? ==> FreshId(s, r.id))
    case Statement(t) => t in s.active && s.active[t].More? && !Blocked(s, t)
    case Commit(t) => t in s.active && s.active[t].Ready?
    case Rollback(t) => t in s.active
    case CreateRows(r) => !OnBooking(r)
  }

  function Drop(s: System, t: TxnId): System {
    s.(active := s.active - {t})
  }

  function Decide(s: System, op: Op, reply: Reply, db: Db): System {
    s.(db := db, log := s.log + [Entry(op, reply)])
  }

  function StatementNext(s: System, t: TxnId): System
    requires Enabled(s, Statement(t))
  {
    var x := s.active[t].txn;
    if HeldByOther(s, t, NextKey(x)) then
      Drop(s, t)  // NOWAIT: the caller is told the seat is being booked
    else
      match Exec(x, s.db, s.clock)
      case Abort(e) => Decide(Drop(s, t), OpOf(x.request, x.start, x.times + [s.clock]), Failed(e), s.db)
      case More(x') => s.(active := s.active[t := More(x')])
      case Ready(x', reply) => s.(active := s.active[t := Ready(x', reply)])
  }

  /** One step; an action that is not enabled does nothing. */
  function Next(s: System, a: Action): System {
    if !Enabled(s, a) then
      s
    else
      match a
      case Tick(now) => s.(clock := now)
      case BeginTxn(t, r) => s.(active := s.active[t := More(Begin(r, s.clock))])
      case Statement(t) => StatementNext(s, t)
      case Commit(t) =>
        var x := s.active[t].txn;
        Decide(Drop(s, t), OpOf(x.request, x.start, x.times), s.active[t].reply, Overlay(s.db, x.writes))
      case Rollback(t) => Drop(s, t)
      case CreateRows(r) =>
        var op := Op(r, Clock(s.clock, s.clock, s.clock));
        Decide(s, op, Apply(s.db, op).reply, Apply(s.db, op).db)
  }

  function After(actions: seq<Action>): System {
    if actions == [] then INIT else Next(After(actions[..|actions| - 1]), actions[|actions| - 1])
  }

  // ---------------------------------------------------------------- the log

  function Ops(log: seq<Entry>): seq<Op> {
    if log == [] then [] else Ops(log[..|log| - 1]) + [log[|log| - 1].op]
  }

  /** Replaying the log atomically gives every caller the reply it got, under a clock that never goes back. */
  ghost predicate Replays(log: seq<Entry>) {
    log == [] ||
    var front, last := log[..|log| - 1], log[|log| - 1];
    Replays(front) && last.op.clock.Monotone() && last.reply == Apply(Run(EMPTY, Ops(front)), last.op).reply
  }

  // ---------------------------------------------------------------- the invariant

  /** Running beside the others made no difference so far: alone, the transaction would be where it is. */
  ghost predicate Undisturbed(db: Db, p: Active) {
    && Solo(p.txn.request, p.txn.start, p.txn.times, db) == p
    && (p.Ready? ==> p.txn.times != [] && Solo(p.txn.request, p.txn.start, p.txn.times[..|p.txn.times| - 1], db).More?)
  }

  ghost predicate Exclusive(s: System) {
    forall t <- s.active, u <- s.active :: t != u ==> s.active[t].txn.held !! s.active[u].txn.held
  }

  ghost predicate FreshIds(s: System) {
    && (forall t <- s.active :: Inserts(s.active[t]).Some? ==> Inserts(s.active[t]).value !in s.db.bookings)
    && (forall t <- s.active, u <- s.active ::
          t != u && Inserts(s.active[t]).Some? ==> Inserts(s.active[t]) != Inserts(s.active[u]))
  }

  ghost predicate ClockOrdered(start: Time, times: seq<Time>, now: Time) {
    && start <= now
    && (forall i :: 0 <= i < |times| ==> start <= times[i] <= now)
    && (forall i, j :: 0 <= i < j < |times| ==> times[i] <= times[j])
  }

  ghost predicate AllUndisturbed(s: System) {
    forall t <- s.active :: Undisturbed(s.db, s.active[t])
  }

  ghost predicate AllOrdered(s: System) {
    forall t <- s.active :: ClockOrdered(s.active[t].txn.start, s.active[t].txn.times, s.clock)
  }

  /** The running transactions are undisturbed, have orderly clocks, disjoint locks and fresh ids. */
  ghost predicate ActiveInv(s: System) {
    && AllUndisturbed(s)
    && AllOrdered(s)
    && Exclusive(s)
    && FreshIds(s)
  }

  ghost predicate LogInv(s: System) {
    Replays(s.log) && s.db == Run(EMPTY, Ops(s.log))
  }

  ghost predicate SysInv(s: System) {
    LogInv(s) && ActiveInv(s)
  }

  lemma ClockMonotone(request: Request, start: Time, times: seq<Time>, now: Time)
    requires ClockOrdered(start, times, now)
    ensures ClockOf(request, start, times).Monotone()
  {
  }

  lemma DecideKeepsLog(s: System, op: Op, reply: Reply, db: Db)
    requires LogInv(s) && op.clock.Monotone() && Apply(s.db, op) == Effect(db, reply)
    ensures LogInv(Decide(s, op, reply, db))
  {
    var s' := Decide(s, op, reply, db);
    assert s'.log[..|s.log|] == s.log;
    RunSnoc(EMPTY, Ops(s.log), op);
  }

  /** A change to rows a transaction has not locked leaves it undisturbed. */
  lemma StaysUndisturbed(db: Db, db': Db, p: Active)
    requires Undisturbed(db, p) && SameRows(p.txn.held, db, db')
    ensures Undisturbed(db', p)
  {
    var x := p.txn;
    SoloStable(x.request, x.start, x.times, db, db');
    if p.Ready? {
      SoloLast(x.request, x.start, x.times, db);
      SoloStable(x.request, x.start, x.times[..|x.times| - 1], db, db');
    }
  }

  /** Committing one transaction leaves the others undisturbed. */
  lemma CommitDisturbsNobody(s: System, t: TxnId, u: TxnId)
    requires SysInv(s) && t in s.active && u in s.active && t != u
    ensures Undisturbed(Overlay(s.db, s.active[t].txn.writes), s.active[u])
  {
    var x, y := s.active[t].txn, s.active[u].txn;
    var db' := Overlay(s.db, x.writes);
    SoloWritesLocked(x.request, x.start, x.times, s.db);
    forall k | k in y.held ensures Look(s.db, k) == Look(db', k) {
      OverlayChanges(s.db, x.writes, k);
      assert k !in s.active[t].txn.held;
    }
    StaysUndisturbed(s.db, db', s.active[u]);
  }

  /** Creating an event, or its seats, changes no row that exists. */
  lemma CreationAddsRows(db: Db, op: Op, k: Key)
    requires !OnBooking(op.request)
    ensures Apply(db, op).db.bookings == db.bookings
    ensures !Look(db, k).Missing? ==> Look(Apply(db, op).db, k) == Look(db, k)
  {
  }

  lemma CreationDisturbsNobody(s: System, op: Op, u: TxnId)
    requires SysInv(s) && u in s.active && !OnBooking(op.request)
    ensures Undisturbed(Apply(s.db, op).db, s.active[u])
  {
    var y := s.active[u].txn;
    var db' := Apply(s.db, op).db;
    ReachableInv(Ops(s.log));
    SoloLocksExist(y.request, y.start, y.times, s.db);
    forall k | k in y.held ensures Look(s.db, k) == Look(db', k) {
      CreationAddsRows(s.db, op, k);
    }
    StaysUndisturbed(s.db, db', s.active[u]);
  }

  // ---------------------------------------------------------------- every step keeps the invariant

  lemma DropKeepsActive(s: System, t: TxnId)
    requires ActiveInv(s)
    ensures ActiveInv(Drop(s, t))
  {
  }

  lemma ClockReads(start: Time, times: seq<Time>, now: Time)
    requires ClockOrdered(start, times, now)
    ensures ClockOrdered(start, times + [now], now)
  {
  }

  ghost predicate Extends(s: System, t: TxnId, p: Active)
    requires t in s.active
  {
    var x := s.active[t].txn;
    && p.txn.request == x.request && p.txn.start == x.start && p.txn.times == x.times + [s.clock]
    && p.txn.held == x.held + {NextKey(x)} && !HeldByOther(s, t, NextKey(x))
  }

  lemma AdvanceKeepsExclusive(s: System, t: TxnId, p: Active)
    requires Exclusive(s) && t in s.active && Extends(s, t, p)
    ensures Exclusive(s.(active := s.active[t := p]))
  {
    forall u | u in s.active && u != t ensures p.txn.held !! s.active[u].txn.held {
      assert NextKey(s.active[t].txn) !in s.active[u].txn.held;
    }
  }

  lemma AdvanceKeepsFresh(s: System, t: TxnId, p: Active)
    requires FreshIds(s) && t in s.active && Extends(s, t, p)
    ensures FreshIds(s.(active := s.active[t := p]))
  {
    assert Inserts(p) == Inserts(s.active[t]);
  }

  /** The lock a statement adds fits in with the others. */
  lemma AdvanceKeepsActive(s: System, t: TxnId, p: Active)
    requires ActiveInv(s) && t in s.active && Undisturbed(s.db, p) && Extends(s, t, p)
    ensures ActiveInv(s.(active := s.active[t := p]))
  {
    var s' := s.(active := s.active[t := p]);
    var x := s.active[t].txn;
    AdvanceKeepsExclusive(s, t, p);
    AdvanceKeepsFresh(s, t, p);
    ClockReads(x.start, x.times, s.clock);
    assert AllUndisturbed(s');
    assert AllOrdered(s');
  }

  /** A lone transaction's next statement leaves it alone, or fails as the atomic transaction fails. */
  lemma UndisturbedStep(db: Db, p: Active, now: Time)
    requires Undisturbed(db, p) && p.More?
    ensures var q := Exec(p.txn, db, now);
            if q.Abort? then
              Apply(db, OpOf(p.txn.request, p.txn.start, p.txn.times + [now])) == Effect(db, Failed(q.error))
            else
              OnBooking(q.txn.request) && Undisturbed(db, q)
  {
    var x := p.txn;
    var times := x.times + [now];
    assert times[..|x.times|] == x.times;
    assert Solo(x.request, x.start, times, db) == Exec(x, db, now);
    SoloIsAtomic(x.request, x.start, times, db);
  }

  lemma StatementFails(s: System, t: TxnId, e: Error)
    requires SysInv(s) && Enabled(s, Statement(t)) && Exec(s.active[t].txn, s.db, s.clock) == Abort(e)
    ensures var x := s.active[t].txn;
            SysInv(Decide(Drop(s, t), OpOf(x.request, x.start, x.times + [s.clock]), Failed(e), s.db))
  {
    var x := s.active[t].txn;
    var times := x.times + [s.clock];
    DropKeepsActive(s, t);
    UndisturbedStep(s.db, s.active[t], s.clock);
    ClockReads(x.start, x.times, s.clock);
    ClockMonotone(x.request, x.start, times, s.clock);
    DecideKeepsLog(Drop(s, t), OpOf(x.request, x.start, times), Failed(e), s.db);
  }

  lemma StatementAdvances(s: System, t: TxnId)
    requires SysInv(s) && Enabled(s, Statement(t)) && !HeldByOther(s, t, NextKey(s.active[t].txn))
    requires !Exec(s.active[t].txn, s.db, s.clock).Abort?
    ensures var p := Exec(s.active[t].txn, s.db, s.clock);
            OnBooking(p.txn.request) && SysInv(s.(active := s.active[t := p]))
  {
    UndisturbedStep(s.db, s.active[t], s.clock);
    AdvanceKeepsActive(s, t, Exec(s.active[t].txn, s.db, s.clock));
  }

  lemma StatementKeepsInv(s: System, t: TxnId)
    requires SysInv(s) && Enabled(s, Statement(t))
    ensures SysInv(StatementNext(s, t))
  {
    if HeldByOther(s, t, NextKey(s.active[t].txn)) {
      DropKeepsActive(s, t);
    } else {
      match Exec(s.active[t].txn, s.db, s.clock)
      case Abort(e) => StatementFails(s, t, e);
      case _ => StatementAdvances(s, t);
    }
  }

  lemma ReadyIsAtomic(s: System, t: TxnId)
    requires SysInv(s) && t in s.active && s.active[t].Ready?
    ensures var x := s.active[t].txn;
            var op := OpOf(x.request, x.start, x.times);
            op.clock.Monotone() && Apply(s.db, op) == Effect(Overlay(s.db, x.writes), s.active[t].reply)
  {
    var x := s.active[t].txn;
    SoloIsAtomic(x.request, x.start, x.times, s.db);
    ClockMonotone(x.request, x.start, x.times, s.clock);
  }

  /** The only booking a transaction can add is the one it reserved. */
  lemma CommitAddsOwnId(s: System, t: TxnId, id: BookingId)
    requires SysInv(s) && t in s.active && s.active[t].Ready?
    requires id in Overlay(s.db, s.active[t].txn.writes).bookings && id !in s.db.bookings
    ensures Inserts(s.active[t]) == Some(id)
  {
    ReadyIsAtomic(s, t);
    var x := s.active[t].txn;
    NewBookingReserved(s.db, OpOf(x.request, x.start, x.times), id);
  }

  lemma CommitKeepsInv(s: System, t: TxnId)
    requires SysInv(s) && Enabled(s, Commit(t))
    ensures SysInv(Next(s, Commit(t)))
  {
    var x := s.active[t].txn;
    var db' := Overlay(s.db, x.writes);
    ReadyIsAtomic(s, t);
    DecideKeepsLog(s, OpOf(x.request, x.start, x.times), s.active[t].reply, db');
    var s' := Drop(s, t).(db := db');
    DropKeepsActive(s, t);
    forall u | u in s'.active ensures Undisturbed(db', s'.active[u]) {
      CommitDisturbsNobody(s, t, u);
    }
    forall u | u in s'.active && Inserts(s'.active[u]).Some? ensures Inserts(s'.active[u]).value !in db'.bookings {
      if Inserts(s.active[u]).value in db'.bookings {
        CommitAddsOwnId(s, t, Inserts(s.active[u]).value);
      }
    }
    assert ActiveInv(s');
  }

  lemma BeginKeepsActive(s: System, t: TxnId, p: Active)
    requires ActiveInv(s) && t !in s.active && Undisturbed(s.db, p) && p.txn.held == {}
    requires ClockOrdered(p.txn.start, p.txn.times, s.clock)
    requires Inserts(p).Some? ==> FreshId(s, Inserts(p).value)
    ensures ActiveInv(s.(active := s.active[t := p]))
  {
    var s' := s.(active := s.active[t := p]);
    assert AllUndisturbed(s');
    assert AllOrdered(s');
    assert Exclusive(s');
  }

  lemma BeginKeepsInv(s: System, t: TxnId, r: Request)
    requires SysInv(s) && Enabled(s, BeginTxn(t, r))
    ensures SysInv(Next(s, BeginTxn(t, r)))
  {
    BeginKeepsActive(s, t, More(Begin(r, s.clock)));
  }

  lemma CreateRowsKeepsInv(s: System, r: Request)
    requires SysInv(s) && !OnBooking(r)
    ensures SysInv(Next(s, CreateRows(r)))
  {
    var op := Op(r, Clock(s.clock, s.clock, s.clock));
    var db' := Apply(s.db, op).db;
    DecideKeepsLog(s, op, Apply(s.db, op).reply, db');
    forall u | u in s.active ensures Undisturbed(db', s.active[u]) {
      CreationDisturbsNobody(s, op, u);
    }
    CreationAddsRows(s.db, op, BookingKey(0));
    assert ActiveInv(s.(db := db'));
  }

  lemma TickKeepsInv(s: System, now: Time)
    requires SysInv(s) && s.clock <= now
    ensures SysInv(s.(clock := now))
  {
  }

  /** Every step of every transaction keeps the invariant. */
  lemma NextKeepsInv(s: System, a: Action)
    requires SysInv(s)
    ensures SysInv(Next(s, a))
  {
    if Enabled(s, a) {
      match a
      case Tick(now) => TickKeepsInv(s, now);
      case BeginTxn(t, r) => BeginKeepsInv(s, t, r);
      case Statement(t) => StatementKeepsInv(s, t);
      case Commit(t) => CommitKeepsInv(s, t);
      case Rollback(t) => DropKeepsActive(s, t);
      case CreateRows(r) => CreateRowsKeepsInv(s, r);
    }
  }

  lemma {:induction false} AfterInv(actions: seq<Action>)
    ensures SysInv(After(actions))
  {
    if actions != [] {
      AfterInv(actions[..|actions| - 1]);
      NextKeepsInv(After(actions[..|actions| - 1]), actions[|actions| - 1]);
    }
  }

  /**
   However the statements of however many transactions interleave, wait, fail and roll back, the
   committed tables are those of running the decided transactions one at a time in commit order,
   and every caller got the reply it would have got then. Transactions that were rolled back, or
   gave way to a lock, appear nowhere.
   */
  lemma {:induction false} SerialInCommitOrder(actions: seq<Action>)
    ensures var s := After(actions);
            s.db == Run(EMPTY, Ops(s.log)) && Replays(s.log)
  {
    AfterInv(actions);
  }

  /** So the ledger invariant holds of the committed tables at every moment. */
  lemma InterleavedInv(actions: seq<Action>)
    ensures Inv(After(actions).db)
  {
    SerialInCommitOrder(actions);
    ReachableInv(Ops(After(actions).log));
  }

  /** A transaction that is rolled back leaves no trace. */
  lemma RollbackLeavesNoTrace(s: System, t: TxnId)
    requires t in s.active
    ensures Next(s, Rollback(t)) == s.(active := s.active - {t})
  {
  }

  // ---------------------------------------------------------------- every serial run is one of them

  lemma AfterSnoc(actions: seq<Action>, a: Action)
    ensures After(actions + [a]) == Next(After(actions), a)
  {
    assert (actions + [a])[..|actions|] == actions;
  }

  /** The clock of a transaction that reads the same time all along. */
  function Instant(t: Time): Clock {
    Clock(t, t, t)
  }

  /** Transaction 0 runs `request`, nothing else runs, and the clock stands still. */
  ghost predicate RunsAlone(s: System, request: Request, t: Time) {
    && s.clock == t && s.active.Keys == {0}
    && s.active[0].txn.request == request && s.active[0].txn.start == t
    && forall i :: 0 <= i < |s.active[0].txn.times| ==> s.active[0].txn.times[i] == t
  }

  /** `s'` is `s` after the transaction was run to its end, and decided. */
  ghost predicate Performed(s: System, s': System, op: Op) {
    && s'.active == map[] && s'.clock == s.clock && s'.db == Apply(s.db, op).db
    && s'.log == s.log + [Entry(op, Apply(s.db, op).reply)]
  }

  lemma OpAtInstant(request: Request, t: Time, times: seq<Time>)
    requires forall i :: 0 <= i < |times| ==> times[i] == t
    ensures OpOf(request, t, times) == Op(request, Instant(t))
  {
  }

  lemma NothingElse(s: System, request: Request, t: Time)
    requires RunsAlone(s, request, t)
    ensures Drop(s, 0).active == map[]
    ensures s.active[0].More? ==> Enabled(s, Statement(0)) && !HeldByOther(s, 0, NextKey(s.active[0].txn))
  {
  }

  lemma CommitOutcome(s: System, op: Op)
    requires 0 in s.active && s.active[0].Ready? && Drop(s, 0).active == map[]
    requires var x := s.active[0].txn;
             OpOf(x.request, x.start, x.times) == op
             && Apply(s.db, op) == Effect(Overlay(s.db, x.writes), s.active[0].reply)
    ensures Performed(s, Next(s, Commit(0)), op)
  {
  }

  lemma CommitAlone(s: System, request: Request, t: Time)
    requires SysInv(s) && RunsAlone(s, request, t) && s.active[0].Ready?
    ensures Performed(s, Next(s, Commit(0)), Op(request, Instant(t)))
  {
    OpAtInstant(request, t, s.active[0].txn.times);
    NothingElse(s, request, t);
    ReadyIsAtomic(s, 0);
    CommitOutcome(s, Op(request, Instant(t)));
  }

  lemma AbortOutcome(s: System, op: Op, e: Error)
    requires Enabled(s, Statement(0)) && !HeldByOther(s, 0, NextKey(s.active[0].txn)) && Drop(s, 0).active == map[]
    requires var x := s.active[0].txn;
             Exec(x, s.db, s.clock) == Abort(e) && OpOf(x.request, x.start, x.times + [s.clock]) == op
    requires Apply(s.db, op) == Effect(s.db, Failed(e))
    ensures Performed(s, Next(s, Statement(0)), op) && 0 !in Next(s, Statement(0)).active
  {
  }

  lemma AdvanceOutcome(s: System, request: Request, t: Time)
    requires RunsAlone(s, request, t) && s.active[0].More?
    requires Enabled(s, Statement(0)) && !HeldByOther(s, 0, NextKey(s.active[0].txn))
    requires !Exec(s.active[0].txn, s.db, t).Abort?
    ensures var s' := Next(s, Statement(0));
            RunsAlone(s', request, t) && s'.db == s.db && s'.log == s.log
            && s'.active[0] == Exec(s.active[0].txn, s.db, t)
  {
  }

  lemma StatementAlone(s: System, request: Request, t: Time)
    requires AllUndisturbed(s) && RunsAlone(s, request, t) && s.active[0].More?
    ensures var s' := Next(s, Statement(0));
            if 0 in s'.active then
              && RunsAlone(s', request, t) && s'.db == s.db && s'.log == s.log
              && Remaining(s'.active[0]) < Remaining(s.active[0])
            else
              Performed(s, s', Op(request, Instant(t)))
  {
    var x := s.active[0].txn;
    NothingElse(s, request, t);
    OpAtInstant(request, t, x.times + [t]);
    UndisturbedStep(s.db, s.active[0], t);
    if Exec(x, s.db, t).Abort? {
      AbortOutcome(s, Op(request, Instant(t)), Exec(x, s.db, t).error);
    } else {
      AdvanceOutcome(s, request, t);
      ExecProgress(s.db, s.active[0], t);
    }
  }

  lemma CommitNext(actions: seq<Action>, request: Request, t: Time)
    requires RunsAlone(After(actions), request, t) && After(actions).active[0].Ready?
    ensures Performed(After(actions), After(actions + [Commit(0)]), Op(request, Instant(t)))
  {
    AfterInv(actions);
    CommitAlone(After(actions), request, t);
    AfterSnoc(actions, Commit(0));
  }

  lemma StatementNextAlone(actions: seq<Action>, request: Request, t: Time)
    requires RunsAlone(After(actions), request, t) && After(actions).active[0].More?
    ensures var s, s' := After(actions), After(actions + [Statement(0)]);
            if 0 in s'.active then
              && RunsAlone(s', request, t) && s'.db == s.db && s'.log == s.log
              && Remaining(s'.active[0]) < Remaining(s.active[0])
            else
              Performed(s, s', Op(request, Instant(t)))
  {
    AfterInv(actions);
    StatementAlone(After(actions), request, t);
    AfterSnoc(actions, Statement(0));
  }

  lemma {:induction false} FinishAlone(actions: seq<Action>, request: Request, t: Time) returns (more: seq<Action>)
    requires RunsAlone(After(actions), request, t)
    ensures Performed(After(actions), After(actions + more), Op(request, Instant(t)))
    decreases Remaining(After(actions).active[0])
  {
    if After(actions).active[0].Ready? {
      more := [Commit(0)];
      CommitNext(actions, request, t);
    } else {
      more := [Statement(0)];
      StatementNextAlone(actions, request, t);
      if 0 in After(actions + [Statement(0)]).active {
        var rest := FinishAlone(actions + [Statement(0)], request, t);
        assert (actions + [Statement(0)]) + rest == actions + ([Statement(0)] + rest);
        more := [Statement(0)] + rest;
      }
    }
  }

  lemma BeginAlone(s: System, request: Request, t: Time)
    requires s.active == map[] && s.clock <= t && OnBooking(request)
    requires request.Reserve? ==> request.id !in s.db.bookings
    ensures var s' := Next(Next(s, Tick(t)), BeginTxn(0, request));
            RunsAlone(s', request, t) && s'.db == s.db && s'.log == s.log
  {
  }

  lemma CreateAlone(s: System, request: Request, t: Time)
    requires s.active == map[] && s.clock <= t && !OnBooking(request)
    ensures var s1 := Next(s, Tick(t));
            Performed(s1, Next(s1, CreateRows(request)), Op(request, Instant(t))) && s1.db == s.db && s1.log == s.log
  {
  }

  lemma OpsSnoc(log: seq<Entry>, entry: Entry)
    ensures Ops(log + [entry]) == Ops(log) + [entry.op]
  {
    assert (log + [entry])[..|log|] == log;
  }

  /** `s'` is `s` after the transaction was run at time `t`, and decided. */
  ghost predicate PerformedAt(s: System, s': System, op: Op, t: Time) {
    && s'.active == map[] && s'.clock == t && s'.db == Apply(s.db, op).db
    && s'.log == s.log + [Entry(op, Apply(s.db, op).reply)]
  }

  lemma AfterTwo(actions: seq<Action>, x: Action, y: Action)
    ensures After(actions + [x] + [y]) == Next(Next(After(actions), x), y)
  {
    AfterSnoc(actions, x);
    AfterSnoc(actions + [x], y);
  }

  lemma PerformOnBooking(actions: seq<Action>, request: Request, t: Time) returns (more: seq<Action>)
    requires After(actions).active == map[] && After(actions).clock <= t && OnBooking(request)
    requires request.Reserve? ==> request.id !in After(actions).db.bookings
    ensures PerformedAt(After(actions), After(actions + more), Op(request, Instant(t)), t)
  {
    var tick, begin := Tick(t), BeginTxn(0, request);
    AfterTwo(actions, tick, begin);
    BeginAlone(After(actions), request, t);
    var rest := FinishAlone(actions + [tick] + [begin], request, t);
    JoinTwo(actions, tick, begin, rest);
    more := [tick, begin] + rest;
  }

  lemma PerformNext(actions: seq<Action>, request: Request, t: Time) returns (more: seq<Action>)
    requires After(actions).active == map[] && After(actions).clock <= t
    requires request.Reserve? ==> request.id !in After(actions).db.bookings
    ensures PerformedAt(After(actions), After(actions + more), Op(request, Instant(t)), t)
  {
    if OnBooking(request) {
      more := PerformOnBooking(actions, request, t);
    } else {
      AfterTwo(actions, Tick(t), CreateRows(request));
      CreateAlone(After(actions), request, t);
      more := [Tick(t), CreateRows(request)] + [];
      JoinTwo(actions, Tick(t), CreateRows(request), []);
      WithNothing(actions + [Tick(t)] + [CreateRows(request)]);
    }
  }

  /** Each transaction reads one time, times never go back, and new bookings get new ids. */
  ghost predicate Schedulable(ops: seq<Op>) {
    && (forall i :: 0 <= i < |ops| ==> ops[i].clock == Instant(ops[i].clock.start) && 0 <= ops[i].clock.start)
    && (forall i, j :: 0 <= i < j < |ops| ==> ops[i].clock.start <= ops[j].clock.start)
    && (forall i :: 0 <= i < |ops| && ops[i].request.Reserve? ==>
          ops[i].request.id !in Run(EMPTY, ops[..i]).bookings)
  }

  lemma SchedulableFront(front: seq<Op>, op: Op)
    requires Schedulable(front + [op])
    ensures Schedulable(front) && op.clock == Instant(op.clock.start) && 0 <= op.clock.start
    ensures front != [] ==> front[|front| - 1].clock.start <= op.clock.start
    ensures op.request.Reserve? ==> op.request.id !in Run(EMPTY, front).bookings
  {
    var ops := front + [op];
    assert ops[|front|] == op && ops[..|front|] == front;
    forall i | 0 <= i < |front| ensures front[i] == ops[i] && front[..i] == ops[..i] {}
  }

  /** The system is idle, after `ops` one at a time. */
  ghost predicate IdleAfter(s: System, ops: seq<Op>) {
    && s.db == Run(EMPTY, ops) && Ops(s.log) == ops && s.active == map[]
    && s.clock == if ops == [] then 0 else ops[|ops| - 1].clock.start
  }

  lemma SerialStep(s: System, s': System, front: seq<Op>, op: Op)
    requires IdleAfter(s, front) && PerformedAt(s, s', op, op.clock.start)
    ensures IdleAfter(s', front + [op])
  {
    RunSnoc(EMPTY, front, op);
    OpsSnoc(s.log, Entry(op, Apply(s.db, op).reply));
  }

  lemma NextSerial(actions: seq<Action>, front: seq<Op>, op: Op) returns (more: seq<Action>)
    requires IdleAfter(After(actions), front) && op.clock == Instant(op.clock.start)
    requires After(actions).clock <= op.clock.start
    requires op.request.Reserve? ==> op.request.id !in Run(EMPTY, front).bookings
    ensures IdleAfter(After(actions + more), front + [op])
  {
    assert op == Op(op.request, Instant(op.clock.start));
    more := PerformNext(actions, op.request, op.clock.start);
    SerialStep(After(actions), After(actions + more), front, op);
  }

  lemma {:induction false} SerialRun(ops: seq<Op>) returns (actions: seq<Action>)
    requires Schedulable(ops)
    ensures IdleAfter(After(actions), ops)
  {
    if ops == [] {
      actions := [];
    } else {
      var front, op := ops[..|ops| - 1], ops[|ops| - 1];
      WithLast(ops);
      SchedulableFront(front, op);
      var before := SerialRun(front);
      var more := NextSerial(before, front, op);
      actions := before + more;
    }
  }

  /**
   The converse of serialisability: whatever the transactions can do one at a time, some interleaving of
   their statements does, with the same log and the same tables.
   */
  lemma {:induction false} EverySerialRun(ops: seq<Op>) returns (actions: seq<Action>)
    requires Schedulable(ops)
    ensures var s := After(actions); s.db == Run(EMPTY, ops) && Ops(s.log) == ops && s.active == map[]
  {
    actions := SerialRun(ops);
  }

  // ---------------------------------------------------------------- waiting

  /** The only selects that do not wait are those of a seat, by a reservation or an extension. */
  predicate SeatSelect(x: Txn) {
    (x.request.Reserve? || x.request.Extend?) && |x.times| == 1
  }

  /**
   A statement that finds its row locked by another transaction ends its own transaction, without a
   trace, if it is the seat select of a reservation or an extension; any other statement waits, that is,
   trying it changes nothing.
   */
  lemma LockedRow(s: System, t: TxnId)
    requires t in s.active && s.active[t].More? && HeldByOther(s, t, NextKey(s.active[t].txn))
    ensures var x, s' := s.active[t].txn, Next(s, Statement(t));
            if SeatSelect(x) then
              NextKey(x).SeatKey? && s' == s.(active := s.active - {t})
            else
              s' == s
  {
    var x := s.active[t].txn;
    var u :| u in s.active && u != t && NextKey(x) in s.active[u].txn.held;
    assert !SeatSelect(x) ==> WaitsFor(s, t, u);
  }

  /** And a statement that finds its row unlocked is carried out: it takes the lock, or its transaction is decided. */
  lemma UnlockedRow(s: System, t: TxnId)
    requires t in s.active && s.active[t].More? && !HeldByOther(s, t, NextKey(s.active[t].txn))
    ensures var x, s' := s.active[t].txn, Next(s, Statement(t));
            if t in s'.active then
              && s'.active[t].txn.held == x.held + {NextKey(x)} && s'.active[t].txn.times == x.times + [s.clock]
              && s'.log == s.log && s'.db == s.db
            else
              && |s'.log| == |s.log| + 1 && s'.log[|s.log|].reply.Failed? && s'.db == s.db
  {
    assert forall u <- s.active :: !WaitsFor(s, t, u);
  }

  lemma HeldBookingExists(s: System, u: TxnId, id: BookingId)
    requires SysInv(s) && u in s.active && BookingKey(id) in s.active[u].txn.held
    ensures id in s.db.bookings || Inserts(s.active[u]) == Some(id)
  {
    var y := s.active[u].txn;
    ReachableInv(Ops(s.log));
    SoloLocksExist(y.request, y.start, y.times, s.db);
  }

  /** An insert of a fresh booking row never waits. */
  lemma InsertNeverWaits(s: System, t: TxnId, u: TxnId)
    requires SysInv(s) && WaitsFor(s, t, u)
    ensures Inserts(s.active[t]).Some? ==> NextKey(s.active[t].txn) != BookingKey(Inserts(s.active[t]).value)
  {
    if Inserts(s.active[t]).Some? && NextKey(s.active[t].txn) == BookingKey(Inserts(s.active[t]).value) {
      HeldBookingExists(s, u, Inserts(s.active[t]).value);
    }
  }

  /** What a transaction about to wait holds, by what it waits for. */
  lemma MidLockOrder(db: Db, x: Txn)
    requires OnBooking(x.request) && Mid(db, x) && NextMode(x) == Wait && NextKey(x) !in x.held
    requires x.request.Reserve? ==> NextKey(x) != BookingKey(x.request.id)
    ensures forall k <- x.held :: Rank(k) < Rank(NextKey(x))
  {
  }

  /** A waiting transaction holds only rows of lower classes than the row it waits for. */
  lemma {:induction false} WaitsUpward(s: System, t: TxnId, u: TxnId)
    requires SysInv(s) && WaitsFor(s, t, u)
    ensures forall k <- s.active[t].txn.held :: Rank(k) < Rank(NextKey(s.active[t].txn))
  {
    var x := s.active[t].txn;
    SoloMid(x.request, x.start, x.times, s.db);
    InsertNeverWaits(s, t, u);
    assert NextKey(x) !in x.held;
    MidLockOrder(s.db, x);
  }

  /** The class of the row a running transaction asks for next. */
  function AsksFor(s: System, t: TxnId): nat {
    if t in s.active then Rank(NextKey(s.active[t].txn)) else 0
  }

  /** Along a chain of waits the rows asked for climb in the lock order. */
  lemma WaitsClimb(s: System, t: TxnId, u: TxnId, v: TxnId)
    requires SysInv(s) && WaitsFor(s, t, u) && WaitsFor(s, u, v)
    ensures AsksFor(s, t) < AsksFor(s, u)
  {
    WaitsUpward(s, u, v);
  }

  function Waits(s: System): (TxnId, TxnId) -> bool {
    (t: TxnId, u: TxnId) => WaitsFor(s, t, u)
  }

  function Asks(s: System): TxnId -> nat {
    (t: TxnId) => AsksFor(s, t)
  }

  lemma AllWaitsClimb(s: System)
    requires SysInv(s)
    ensures Climbs(Waits(s), Asks(s))
  {
    forall t: TxnId, u: TxnId, v: TxnId | Waits(s)(t, u) && Waits(s)(u, v) ensures Asks(s)(t) < Asks(s)(u) {
      WaitsClimb(s, t, u, v);
    }
  }

  /** No reachable state contains a deadlock. */
  lemma NoDeadlock(actions: seq<Action>, cycle: seq<TxnId>)
    ensures !Circle(Waits(After(actions)), cycle)
  {
    AfterInv(actions);
    AllWaitsClimb(After(actions));
    NoCircle(Waits(After(actions)), Asks(After(actions)), cycle);
  }

  lemma NotBlocked(s: System, t: TxnId) returns (u: TxnId)
    requires t in s.active && Climbs(Waits(s), Asks(s))
    ensures Enabled(s, Statement(u)) || Enabled(s, Commit(u))
  {
    u := ChainEnds(Waits(s), Asks(s), 3, s.active.Keys, t);
    forall v: TxnId ensures !WaitsFor(s, u, v) {
      assert !Waits(s)(u, v);
    }
  }

  /** While any transaction runs, some transaction can take its next step. */
  lemma SomeoneCanMove(actions: seq<Action>, t: TxnId) returns (u: TxnId)
    requires t in After(actions).active
    ensures Enabled(After(actions), Statement(u)) || Enabled(After(actions), Commit(u))
  {
    AfterInv(actions);
    AllWaitsClimb(After(actions));
    u := NotBlocked(After(actions), t);
  }

  /** How many statements and commits the running transactions still have to do, at most. */
  function Remaining(p: Active): nat {
    if p.More? && |p.txn.times| <= Statements(p.txn.request) then 2 + Statements(p.txn.request) - |p.txn.times| else 1
  }

  lemma ExecProgress(db: Db, p: Active, now: Time)
    requires p.More? && Undisturbed(db, p) && !Exec(p.txn, db, now).Abort?
    ensures Remaining(Exec(p.txn, db, now)) < Remaining(p)
  {
    var x := p.txn;
    SoloMid(x.request, x.start, x.times, db);
    MidInRange(db, x);
  }

  /** A statement that does not end its transaction brings it one step nearer to its commit. */
  lemma {:induction false} StatementProgress(s: System, t: TxnId)
    requires Enabled(s, Statement(t)) && Undisturbed(s.db, s.active[t]) && t in Next(s, Statement(t)).active
    ensures Remaining(Next(s, Statement(t)).active[t]) < Remaining(s.active[t])
  {
    ExecProgress(s.db, s.active[t], s.clock);
  }
}
