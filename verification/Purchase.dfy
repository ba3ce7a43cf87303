/**
 Any number of PurchaseBooking calls, one database transaction or payment call at a time, beside
 everything else that happens to the ledger: reservations, cancellations, releases by the queue
 worker and the sweep. By `Interleaving`, each transaction may be taken as one step.
 */
module Purchase {
  import opened Prelude
  import opened Ledger
  import opened LedgerRuns

  /** How far an accepted purchase pushes the deadline of the reservation: two minutes, in seconds. */
  const PROCESSING_EXTENSION: Time := 120

  type CallId = nat

  /** Where a call is. `finishing` marks the path of a call that found the booking already purchased. */
  datatype Pc =
    | Finding
    | ReleasingOverdue
    | Extending
    | Ensuring(seen: Booking, finishing: bool)
    | Storing(prepared: string, finishing: bool)
    | Completing
    | Rechecking
    | Charging(intent: Option<string>, finishing: bool)
    | Reverting
    | Ended(ok: bool)

  datatype Call = Call(user: UserId, id: BookingId, pc: Pc)

  /**
   `confirmed` records every payment the provider confirmed, by booking; `stranded` the bookings whose
   payment failed and whose revert then failed too.
   */
  datatype State = State(
    db: Db, calls: map<CallId, Call>, confirmed: map<BookingId, string>, stranded: set<BookingId>)

  const START := State(EMPTY, map[], map[], {})

  /** What the outside world contributes to a step of a call. */
  datatype Event =
    | Proceed(clock: Clock)       // the statement runs; the clock is what it reads
    | Prepared(intent: string)    // the provider created a payment intent
    | PaymentSucceeded
    | PaymentFailed
    | Fault                       // a database or provider error

  datatype Action =
    | StartCall(k: CallId, user: UserId, id: BookingId)
    | Advance(k: CallId, event: Event)
    | Others(op: Op)

  /** These transactions are only ever run by a PurchaseBooking call. */
  predicate PurchaseOnly(r: Request) {
    r.SetIntent? || r.Complete? || r.Revert?
  }

  /** strings.TrimSpace(s) == "" for the ASCII white space. */
  predicate Blank(s: string) {
    forall c <- s :: c in {' ', '\t', '\n', '\r'}
  }

  predicate Usable(intent: Option<string>) {
    intent.Some? && !Blank(intent.value)
  }

  function At(s: State, k: CallId, pc: Pc): State
    requires k in s.calls
  {
    s.(calls := s.calls[k := s.calls[k].(pc := pc)])
  }

  /** Where a call goes once its booking carries an intent. */
  function AfterIntent(b: Booking, finishing: bool): Pc {
    if finishing then Charging(b.intent, true) else Completing
  }

  function FindNext(db: Db, call: Call, now: Time): Pc {
    if call.id !in db.bookings then Ended(false)
    else if db.bookings[call.id].user != call.user then Ended(false)
    else if !db.bookings[call.id].status.Reserved? then Ended(false)
    else if now > db.bookings[call.id].expiresAt then ReleasingOverdue
    else Extending
  }

  function RecheckNext(db: Db, call: Call): Pc {
    if call.id in db.bookings && db.bookings[call.id].status.Purchased? then
      Ensuring(db.bookings[call.id], true)
    else
      Ended(false)
  }

  /** The transaction a call is about to run, if any. */
  function TxOf(call: Call, c: Clock): Option<Op> {
    match call.pc
    case ReleasingOverdue => Some(Op(Expire(call.id), c))
    case Extending => Some(Op(Extend(call.id, c.start + PROCESSING_EXTENSION, c.start), c))
    case Storing(intent, _) => Some(Op(SetIntent(call.id, intent), c))
    case Completing => Some(Op(Complete(call.id), c))
    case Reverting => Some(Op(Revert(call.id), c))
    case _ => None
  }

  /** Where the reply of that transaction sends the call. */
  function AfterTx(pc: Pc, reply: Reply): Pc {
    match pc
    case Extending => if reply.Done? then Ensuring(reply.booking, false) else Ended(false)
    case Storing(_, finishing) => if reply.Done? then AfterIntent(reply.booking, finishing) else Ended(false)
    case Completing =>
      if reply.Done? then Charging(reply.booking.intent, false)
      else if reply == Failed(BookingNotReserved) then Rechecking
      else Ended(false)
    case _ => Ended(false)
  }

  /** One step of a call; an event that does not fit does nothing. */
  function AdvanceCall(s: State, k: CallId, event: Event): State
    requires k in s.calls
  {
    var call := s.calls[k];
    match (call.pc, event)
    case (Ended(_), _) => s
    case (Charging(intent, finishing), PaymentSucceeded) =>
      if Usable(intent) then
        At(s, k, Ended(true)).(confirmed := s.confirmed[call.id := intent.value])
      else
        s
    case (Charging(intent, finishing), PaymentFailed) =>
      At(s, k, if finishing then Ended(false) else Reverting)
    case (Charging(intent, finishing), Proceed(_)) =>   // no usable intent: no payment is attempted
      if Usable(intent) then s else At(s, k, if finishing then Ended(false) else Reverting)
    case (Charging(_, _), Fault) => s                   // a payment call succeeds or fails
    case (Reverting, Fault) =>                          // the error is only logged
      At(s, k, Ended(false)).(stranded := s.stranded + {call.id})
    case (_, Fault) => At(s, k, Ended(false))
    case (Ensuring(b, finishing), Proceed(_)) =>
      if Usable(b.intent) then At(s, k, AfterIntent(b, finishing)) else s
    case (Ensuring(b, finishing), Prepared(intent)) =>
      if Usable(b.intent) then s else At(s, k, Storing(intent, finishing))
    case (Finding, Proceed(c)) => At(s, k, FindNext(s.db, call, c.first))
    case (Rechecking, Proceed(c)) => At(s, k, RecheckNext(s.db, call))
    case (_, Proceed(c)) =>
      (match TxOf(call, c)
       case Some(op) =>
         var r := Apply(s.db, op);
         At(s, k, AfterTx(call.pc, r.reply)).(db := r.db)
       case None => s)
    case _ => s
  }

  predicate InFlight(s: State, id: BookingId) {
    exists k <- s.calls :: s.calls[k].id == id && !s.calls[k].pc.Ended?
  }

  function Next(s: State, a: Action): State {
    match a
    case StartCall(k, user, id) => if k in s.calls then s else s.(calls := s.calls[k := Call(user, id, Finding)])
    case Advance(k, event) => if k in s.calls then AdvanceCall(s, k, event) else s
    case Others(op) => if PurchaseOnly(op.request) then s else s.(db := Apply(s.db, op).db)
  }

  function RunFrom(s: State, actions: seq<Action>): State {
    if actions == [] then s else Next(RunFrom(s, actions[..|actions| - 1]), actions[|actions| - 1])
  }

  /** No call is started on a booking while another call on it is in flight. */
  predicate OneAtATime(s: State, actions: seq<Action>) {
    actions == [] ||
    var front, last := actions[..|actions| - 1], actions[|actions| - 1];
    OneAtATime(s, front) && (last.StartCall? ==> !InFlight(RunFrom(s, front), last.id))
  }

  // ---------------------------------------------------------------- the invariant

  predicate IsPurchased(db: Db, id: BookingId) {
    id in db.bookings && db.bookings[id].status.Purchased?
  }

  /** The call holds a completed purchase whose payment is still open. */
  predicate Owes(call: Call) {
    (call.pc.Charging? && !call.pc.finishing) || call.pc.Reverting?
  }

  /** The call has found its booking reserved and has not completed it. */
  predicate BeforeCompletion(pc: Pc) {
    pc.Extending? || pc.Completing? || pc.Rechecking? || pc.Ensuring? || pc.Storing?
  }

  ghost predicate CallInv(s: State, call: Call) {
    && (BeforeCompletion(call.pc) ==> !IsPurchased(s.db, call.id))
    && ((call.pc.Ensuring? || call.pc.Storing? || call.pc.Charging?) ==> !call.pc.finishing)
    && (Owes(call) ==> IsPurchased(s.db, call.id) && call.id !in s.confirmed && call.id !in s.stranded)
    && (call.pc.Charging? ==> IsPurchased(s.db, call.id) && s.db.bookings[call.id].intent == call.pc.intent)
    && (call.pc == Ended(true) ==> call.id in s.confirmed)
  }

  ghost predicate CallsInv(s: State) {
    forall k <- s.calls :: CallInv(s, s.calls[k])
  }

  ghost predicate OneEach(s: State) {
    forall k <- s.calls, m <- s.calls :: k != m && s.calls[k].id == s.calls[m].id ==>
      s.calls[k].pc.Ended? || s.calls[m].pc.Ended?
  }

  /** A confirmed payment belongs to a purchased booking, and is the payment stored with it. */
  ghost predicate ConfirmedSound(s: State) {
    forall id <- s.confirmed :: IsPurchased(s.db, id) && s.db.bookings[id].intent == Some(s.confirmed[id])
  }

  ghost predicate Owed(s: State, id: BookingId) {
    exists k <- s.calls :: s.calls[k].id == id && Owes(s.calls[k])
  }

  ghost predicate StrandedSound(s: State) {
    forall id <- s.stranded :: IsPurchased(s.db, id) && id !in s.confirmed
  }

  /** Every purchased booking is paid or stranded, or a call in flight is still at it. */
  ghost predicate PurchasesPaid(s: State) {
    forall id <- s.db.bookings :: IsPurchased(s.db, id) ==> id in s.confirmed || id in s.stranded || Owed(s, id)
  }

  ghost predicate PInv(s: State) {
    CallsInv(s) && OneEach(s) && ConfirmedSound(s) && StrandedSound(s) && PurchasesPaid(s)
  }

  // ---------------------------------------------------------------- frames

  /** A transaction on one booking leaves the row of every other booking alone. */
  lemma OnlyItsBooking(db: Db, op: Op, x: BookingId)
    requires op.request.Expire? || op.request.Extend? || PurchaseOnly(op.request)
    requires x != op.request.id
    ensures x in Apply(db, op).db.bookings <==> x in db.bookings
    ensures x in db.bookings ==> Apply(db, op).db.bookings[x] == db.bookings[x]
  {
  }

  /** Nobody but a PurchaseBooking call purchases a booking, or touches a purchased one. */
  lemma OthersKeepPurchases(db: Db, op: Op, x: BookingId)
    requires !PurchaseOnly(op.request)
    ensures IsPurchased(Apply(db, op).db, x) <==> IsPurchased(db, x)
    ensures IsPurchased(db, x) ==> Apply(db, op).db.bookings[x] == db.bookings[x]
  {
    if x in db.bookings {
      StepEvolves(db, op, x);
      StatusChange(db, op, x);
    } else if x in Apply(db, op).db.bookings {
      NewBookingReserved(db, op, x);
    }
  }

  ghost predicate SamePurchase(db: Db, db': Db, x: BookingId) {
    && (IsPurchased(db', x) <==> IsPurchased(db, x))
    && (IsPurchased(db, x) ==> db'.bookings[x].intent == db.bookings[x].intent)
  }

  /** Purchases and payments of other bookings are as before. */
  ghost predicate OthersSame(s: State, s': State, id: BookingId) {
    forall x :: x != id ==>
      SamePurchase(s.db, s'.db, x) && (x in s'.confirmed <==> x in s.confirmed)
      && (x in s.confirmed ==> s'.confirmed[x] == s.confirmed[x]) && (x in s'.stranded <==> x in s.stranded)
  }

  /** What a step of a call must establish for its own booking. */
  ghost predicate OwnSound(s: State, s': State, call: Call) {
    var id := call.id;
    && (id in s.confirmed ==> id in s'.confirmed)
    && (id in s'.confirmed ==> IsPurchased(s'.db, id) && s'.db.bookings[id].intent == Some(s'.confirmed[id]))
    && (id in s'.stranded ==> IsPurchased(s'.db, id) && id !in s'.confirmed)
    && (IsPurchased(s'.db, id) ==> id in s'.confirmed || id in s'.stranded || Owes(call))
    && CallInv(s', call)
  }

  ghost predicate Moves(s: State, s': State, k: CallId, pc: Pc) {
    && k in s.calls && !s.calls[k].pc.Ended?
    && s'.calls == s.calls[k := s.calls[k].(pc := pc)]
    && OthersSame(s, s', s.calls[k].id)
    && OwnSound(s, s', s.calls[k].(pc := pc))
  }

  lemma MoveKeepsCalls(s: State, s': State, k: CallId, pc: Pc)
    requires CallsInv(s) && OneEach(s) && Moves(s, s', k, pc)
    ensures CallsInv(s') && OneEach(s')
  {
    forall m | m in s'.calls && m != k ensures CallInv(s', s'.calls[m]) {
      assert CallInv(s, s.calls[m]);
    }
  }

  lemma MoveKeepsPaid(s: State, s': State, k: CallId, pc: Pc)
    requires PurchasesPaid(s) && Moves(s, s', k, pc)
    ensures PurchasesPaid(s')
  {
    forall x | IsPurchased(s'.db, x) && x !in s'.confirmed && x !in s'.stranded ensures Owed(s', x) {
      if x == s.calls[k].id {
        assert s'.calls[k].id == x && Owes(s'.calls[k]);
      } else {
        assert SamePurchase(s.db, s'.db, x);
        var m :| m in s.calls && s.calls[m].id == x && Owes(s.calls[m]);
        assert s'.calls[m] == s.calls[m];
      }
    }
  }

  lemma MoveKeepsInv(s: State, s': State, k: CallId, pc: Pc)
    requires PInv(s) && Moves(s, s', k, pc)
    ensures PInv(s')
  {
    MoveKeepsCalls(s, s', k, pc);
    MoveKeepsPaid(s, s', k, pc);
    forall x | x in s'.confirmed && x != s.calls[k].id
      ensures IsPurchased(s'.db, x) && s'.db.bookings[x].intent == Some(s'.confirmed[x])
    {
      assert SamePurchase(s.db, s'.db, x);
    }
    forall x | x in s'.stranded && x != s.calls[k].id ensures IsPurchased(s'.db, x) && x !in s'.confirmed {
      assert SamePurchase(s.db, s'.db, x);
    }
  }

  /** The only call in flight on a booking is the one that may owe its payment. */
  lemma OnlyMine(s: State, k: CallId)
    requires PInv(s) && k in s.calls && !s.calls[k].pc.Ended?
    ensures var id := s.calls[k].id;
            IsPurchased(s.db, id) ==> id in s.confirmed || id in s.stranded || Owes(s.calls[k])
  {
    var id := s.calls[k].id;
    if IsPurchased(s.db, id) && id !in s.confirmed && id !in s.stranded {
      var m :| m in s.calls && s.calls[m].id == id && Owes(s.calls[m]);
      assert m == k;
    }
  }

  // ---------------------------------------------------------------- every step keeps the invariant

  /** A step that neither runs a transaction nor confirms a payment. */
  lemma QuietMove(s: State, k: CallId, pc: Pc)
    requires PInv(s) && k in s.calls && !s.calls[k].pc.Ended?
    requires Owes(s.calls[k]) ==> Owes(s.calls[k].(pc := pc))
    requires CallInv(s, s.calls[k].(pc := pc))
    ensures PInv(At(s, k, pc))
  {
    OnlyMine(s, k);
    MoveKeepsInv(s, At(s, k, pc), k, pc);
  }

  /** What each transaction of a call does to its own booking. */
  lemma OwnTx(db: Db, call: Call, c: Clock, confirmed: map<BookingId, string>, stranded: set<BookingId>)
    requires TxOf(call, c).Some?
    requires IsPurchased(db, call.id) ==> call.id in confirmed || call.id in stranded || Owes(call)
    requires call.id in confirmed ==>
               IsPurchased(db, call.id) && db.bookings[call.id].intent == Some(confirmed[call.id])
    requires call.id in stranded ==> IsPurchased(db, call.id) && call.id !in confirmed
    requires CallInv(State(db, map[], confirmed, stranded), call)
    ensures var r := Apply(db, TxOf(call, c).value);
            var s := State(db, map[], confirmed, stranded);
            OwnSound(s, s.(db := r.db), call.(pc := AfterTx(call.pc, r.reply)))
  {
  }

  /** The step of a call that is about to run a transaction. */
  lemma TxMove(s: State, k: CallId, c: Clock)
    requires PInv(s) && k in s.calls && TxOf(s.calls[k], c).Some?
    ensures PInv(AdvanceCall(s, k, Proceed(c)))
  {
    var call := s.calls[k];
    var op := TxOf(call, c).value;
    var r := Apply(s.db, op);
    var pc := AfterTx(call.pc, r.reply);
    var s' := At(s, k, pc).(db := r.db);
    forall x | x != call.id ensures SamePurchase(s.db, r.db, x) {
      OnlyItsBooking(s.db, op, x);
    }
    OnlyMine(s, k);
    OwnTx(s.db, call, c, s.confirmed, s.stranded);
    assert Moves(s, s', k, pc);
    MoveKeepsInv(s, s', k, pc);
  }

  lemma ChargeMove(s: State, k: CallId, intent: string)
    requires PInv(s) && k in s.calls && s.calls[k].pc.Charging? && s.calls[k].pc.intent == Some(intent)
    ensures PInv(At(s, k, Ended(true)).(confirmed := s.confirmed[s.calls[k].id := intent]))
  {
    var s' := At(s, k, Ended(true)).(confirmed := s.confirmed[s.calls[k].id := intent]);
    assert Moves(s, s', k, Ended(true));
    MoveKeepsInv(s, s', k, Ended(true));
  }

  lemma StrandMove(s: State, k: CallId)
    requires PInv(s) && k in s.calls && s.calls[k].pc.Reverting?
    ensures PInv(At(s, k, Ended(false)).(stranded := s.stranded + {s.calls[k].id}))
  {
    var s' := At(s, k, Ended(false)).(stranded := s.stranded + {s.calls[k].id});
    assert Moves(s, s', k, Ended(false));
    MoveKeepsInv(s, s', k, Ended(false));
  }

  lemma AdvanceKeepsInv(s: State, k: CallId, event: Event)
    requires PInv(s) && k in s.calls
    ensures PInv(AdvanceCall(s, k, event))
  {
    var call := s.calls[k];
    match (call.pc, event)
    case (Ended(_), _) =>
    case (Charging(intent, finishing), PaymentSucceeded) =>
      if Usable(intent) { ChargeMove(s, k, intent.value); }
    case (Charging(intent, finishing), PaymentFailed) => QuietMove(s, k, Reverting);
    case (Charging(intent, finishing), Proceed(_)) =>
      if !Usable(intent) { QuietMove(s, k, Reverting); }
    case (Charging(_, _), Fault) =>
    case (Reverting, Fault) => StrandMove(s, k);
    case (_, Fault) => QuietMove(s, k, Ended(false));
    case (Ensuring(b, finishing), Proceed(_)) =>
      if Usable(b.intent) { QuietMove(s, k, Completing); }
    case (Ensuring(b, finishing), Prepared(intent)) =>
      if !Usable(b.intent) { QuietMove(s, k, Storing(intent, finishing)); }
    case (Finding, Proceed(c)) => QuietMove(s, k, FindNext(s.db, call, c.first));
    case (Rechecking, Proceed(c)) => QuietMove(s, k, RecheckNext(s.db, call));
    case (_, Proceed(c)) => TxMove(s, k, c);
    case _ =>
  }

  lemma OthersKeepInv(s: State, op: Op)
    requires PInv(s) && !PurchaseOnly(op.request)
    ensures PInv(s.(db := Apply(s.db, op).db))
  {
    var s' := s.(db := Apply(s.db, op).db);
    forall x ensures SamePurchase(s.db, s'.db, x) {
      OthersKeepPurchases(s.db, op, x);
    }
    SamePurchasesKeepInv(s, s');
  }

  lemma SamePurchasesKeepInv(s: State, s': State)
    requires PInv(s) && s'.calls == s.calls && s'.confirmed == s.confirmed && s'.stranded == s.stranded
    requires forall x :: SamePurchase(s.db, s'.db, x)
    ensures PInv(s')
  {
    forall k | k in s'.calls ensures CallInv(s', s'.calls[k]) {
      assert CallInv(s, s.calls[k]) && SamePurchase(s.db, s'.db, s.calls[k].id);
    }
    forall x | IsPurchased(s'.db, x) && x !in s'.confirmed && x !in s'.stranded ensures Owed(s', x) {
      assert SamePurchase(s.db, s'.db, x);
    }
    forall x | x in s'.stranded ensures IsPurchased(s'.db, x) && x !in s'.confirmed {
      assert SamePurchase(s.db, s'.db, x);
    }
    forall x | x in s'.confirmed
      ensures IsPurchased(s'.db, x) && s'.db.bookings[x].intent == Some(s'.confirmed[x])
    {
      assert SamePurchase(s.db, s'.db, x);
    }
  }

  lemma StartKeepsInv(s: State, k: CallId, call: Call)
    requires PInv(s) && k !in s.calls && call.pc == Finding && !InFlight(s, call.id)
    ensures PInv(s.(calls := s.calls[k := call]))
  {
    var s' := s.(calls := s.calls[k := call]);
    forall m | m in s'.calls ensures CallInv(s', s'.calls[m]) {
      assert m != k ==> CallInv(s, s.calls[m]);
    }
    forall x | IsPurchased(s'.db, x) && x !in s'.confirmed && x !in s'.stranded ensures Owed(s', x) {
      var m :| m in s.calls && s.calls[m].id == x && Owes(s.calls[m]);
      assert s'.calls[m] == s.calls[m];
    }
  }

  lemma NextKeepsInv(s: State, a: Action)
    requires PInv(s) && (a.StartCall? ==> !InFlight(s, a.id))
    ensures PInv(Next(s, a))
  {
    match a
    case StartCall(k, user, id) => if k !in s.calls { StartKeepsInv(s, k, Call(user, id, Finding)); }
    case Advance(k, event) => if k in s.calls { AdvanceKeepsInv(s, k, event); }
    case Others(op) => if !PurchaseOnly(op.request) { OthersKeepInv(s, op); }
  }

  lemma {:induction false} OneAtATimeInv(actions: seq<Action>)
    requires OneAtATime(START, actions)
    ensures PInv(RunFrom(START, actions))
  {
    if actions != [] {
      OneAtATimeInv(actions[..|actions| - 1]);
      NextKeepsInv(RunFrom(START, actions[..|actions| - 1]), actions[|actions| - 1]);
    }
  }

  // ---------------------------------------------------------------- only the owner

  /** A call that got past its first look at the booking is of the booking's user. */
  ghost predicate Entitled(s: State, call: Call) {
    call.pc != Finding && call.pc != Ended(false) ==>
      call.id in s.db.bookings && s.db.bookings[call.id].user == call.user
  }

  lemma StepIsLedgerStep(s: State, a: Action)
    ensures Next(s, a).db == s.db || exists op :: Next(s, a).db == Apply(s.db, op).db
  {
  }

  lemma StaysEntitled(s: State, call: Call, op: Op)
    requires Entitled(s, call)
    ensures Entitled(s.(db := Apply(s.db, op).db), call)
  {
    if call.id in s.db.bookings {
      StepEvolves(s.db, op, call.id);
    }
  }

  lemma AdvanceEntitled(s: State, k: CallId, event: Event)
    requires k in s.calls && Entitled(s, s.calls[k])
    ensures Entitled(AdvanceCall(s, k, event), AdvanceCall(s, k, event).calls[k])
  {
    var call := s.calls[k];
    match (call.pc, event)
    case (_, Proceed(c)) =>
      if TxOf(call, c).Some? {
        StaysEntitled(s, call, TxOf(call, c).value);
      }
    case _ =>
  }

  lemma OtherEntitled(s: State, a: Action, m: CallId)
    requires m in s.calls && Entitled(s, s.calls[m]) && !(a.Advance? && a.k == m)
    ensures m in Next(s, a).calls && Next(s, a).calls[m] == s.calls[m] && Entitled(Next(s, a), s.calls[m])
  {
    StepIsLedgerStep(s, a);
    if Next(s, a).db != s.db {
      var op :| Next(s, a).db == Apply(s.db, op).db;
      StaysEntitled(s, s.calls[m], op);
    }
  }

  /**
   In every run, however calls overlap: a call that found its booking, and above all one that released,
   bought, paid for or reverted it, is of the booking's own user.
   */
  lemma {:induction false} OnlyTheOwner(actions: seq<Action>, k: CallId)
    requires k in RunFrom(START, actions).calls
    ensures var s := RunFrom(START, actions);
            var call := s.calls[k];
            call.pc != Finding && call.pc != Ended(false) ==>
              call.id in s.db.bookings && s.db.bookings[call.id].user == call.user
  {
    if actions != [] {
      var front, last := actions[..|actions| - 1], actions[|actions| - 1];
      var s := RunFrom(START, front);
      if k in s.calls {
        OnlyTheOwner(front, k);
        if last.Advance? && last.k == k {
          AdvanceEntitled(s, k, last.event);
        } else {
          OtherEntitled(s, last, k);
        }
      }
    }
  }

  /** A call on somebody else's booking changes neither the tables nor the payments. */
  lemma {:induction false} StrangersChangeNothing(actions: seq<Action>, k: CallId, event: Event)
    requires var s := RunFrom(START, actions);
             k in s.calls && s.calls[k].id in s.db.bookings && s.db.bookings[s.calls[k].id].user != s.calls[k].user
    ensures var s := RunFrom(START, actions);
            AdvanceCall(s, k, event) == s || AdvanceCall(s, k, event) == At(s, k, Ended(false))
  {
    OnlyTheOwner(actions, k);
  }

  // ---------------------------------------------------------------- what the caller and the seat holder can rely on

  lemma {:induction false} LedgerSound(actions: seq<Action>)
    ensures Inv(RunFrom(START, actions).db)
  {
    if actions == [] {
      EmptyInv();
    } else {
      var front, last := actions[..|actions| - 1], actions[|actions| - 1];
      LedgerSound(front);
      var s := RunFrom(START, front);
      StepIsLedgerStep(s, last);
      if Next(s, last).db != s.db {
        var op :| Next(s, last).db == Apply(s.db, op).db;
        ApplyKeepsInv(s.db, op);
      }
    }
  }

  /**
   With at most one call in flight per booking: at every moment a confirmed payment belongs to a
   purchased booking whose seat is sold and which stores that very payment; and a purchased booking
   with no call in flight has been paid, unless the revert of its failed payment failed too. A call that
   returned success was its owner's, and its success stays true.
   */
  lemma {:induction false} PaymentsAndPurchasesAgree(actions: seq<Action>, id: BookingId)
    requires OneAtATime(START, actions)
    ensures var s := RunFrom(START, actions);
            && (id in s.confirmed ==>
                  && IsPurchased(s.db, id) && s.db.bookings[id].intent == Some(s.confirmed[id])
                  && s.db.bookings[id].seat in s.db.seats && s.db.seats[s.db.bookings[id].seat].status.Sold?)
            && (!InFlight(s, id) && id !in s.stranded ==> (id in s.confirmed <==> IsPurchased(s.db, id)))
            && (id in s.stranded ==> IsPurchased(s.db, id) && id !in s.confirmed)
            && (forall k <- s.calls :: s.calls[k].id == id && s.calls[k].pc == Ended(true) ==>
                  id in s.confirmed && s.db.bookings[id].user == s.calls[k].user)
  {
    OneAtATimeInv(actions);
    LedgerSound(actions);
    var s := RunFrom(START, actions);
    if id in s.confirmed {
      assert Agree(s.db.bookings[id], s.db.seats[s.db.bookings[id].seat]);
    }
    forall k | k in s.calls && s.calls[k].id == id && s.calls[k].pc == Ended(true)
      ensures id in s.confirmed && s.db.bookings[id].user == s.calls[k].user
    {
      assert CallInv(s, s.calls[k]);
      OnlyTheOwner(actions, k);
    }
  }

  /** Only a charging call with a usable intent confirms a payment. */
  lemma OnlyChargesConfirm(s: State, k: CallId)
    requires k in s.calls && AdvanceCall(s, k, PaymentSucceeded).confirmed != s.confirmed
    ensures s.calls[k].pc.Charging?
  {
  }

  lemma PurchasedIsSold(db: Db, id: BookingId)
    requires RowsLinked(db) && IsPurchased(db, id)
    ensures db.bookings[id].seat in db.seats && db.seats[db.bookings[id].seat] == Seat(Sold, None)
  {
    assert Agree(db.bookings[id], db.seats[db.bookings[id].seat]);
  }

  /** A payment is confirmed only while its booking is purchased and its seat is sold. */
  lemma {:induction false} ConfirmsOnlySold(actions: seq<Action>, k: CallId)
    requires OneAtATime(START, actions) && k in RunFrom(START, actions).calls
    requires var s := RunFrom(START, actions); AdvanceCall(s, k, PaymentSucceeded).confirmed != s.confirmed
    ensures var s := RunFrom(START, actions);
            var id := s.calls[k].id;
            && IsPurchased(s.db, id) && id !in s.confirmed
            && s.db.bookings[id].seat in s.db.seats && s.db.seats[s.db.bookings[id].seat] == Seat(Sold, None)
  {
    CallSound(actions, k);
    LinksSound(actions);
    OnlyChargesConfirm(RunFrom(START, actions), k);
    PurchasedIsSold(RunFrom(START, actions).db, RunFrom(START, actions).calls[k].id);
  }

  /**
   A failed charge is always followed by a revert that succeeds: the booking ends cancelled without
   its payment intent, its seat is free and the counter of its event has it back.
   */
  lemma FailedChargeGivesSeatBack(actions: seq<Action>, k: CallId, c: Clock)
    requires OneAtATime(START, actions)
    requires k in RunFrom(START, actions).calls && RunFrom(START, actions).calls[k].pc.Reverting?
    ensures var s := RunFrom(START, actions);
            var s' := AdvanceCall(s, k, Proceed(c));
            var id := s.calls[k].id;
            && id in s.db.bookings && id in s'.db.bookings
            && var b := s.db.bookings[id];
               && s'.db.bookings[id] == b.(status := Cancelled, purchasedAt := None, intent := None)
               && b.seat in s'.db.seats && s'.db.seats[b.seat] == FREE
               && b.event in s.db.events && b.event in s'.db.events
               && s'.db.events[b.event].available == s.db.events[b.event].available + 1
               && s'.calls[k].pc == Ended(false) && id !in s'.confirmed
  {
    CallSound(actions, k);
    LinksSound(actions);
    RevertOutcome(RunFrom(START, actions).db, RunFrom(START, actions).calls[k].id);
  }

  lemma CallSound(actions: seq<Action>, k: CallId)
    requires OneAtATime(START, actions) && k in RunFrom(START, actions).calls
    ensures CallInv(RunFrom(START, actions), RunFrom(START, actions).calls[k])
  {
    OneAtATimeInv(actions);
  }

  lemma LinksSound(actions: seq<Action>)
    ensures RowsLinked(RunFrom(START, actions).db)
  {
    LedgerSound(actions);
  }

  lemma RevertOutcome(db: Db, id: BookingId)
    requires RowsLinked(db) && IsPurchased(db, id)
    ensures var b := db.bookings[id];
            var r := RevertTx(db, id);
            && r.reply.Done? && id in r.db.bookings
            && r.db.bookings[id] == b.(status := Cancelled, purchasedAt := None, intent := None)
            && b.seat in r.db.seats && r.db.seats[b.seat] == FREE
            && b.event in db.events && b.event in r.db.events
            && r.db.events[b.event].available == db.events[b.event].available + 1
  {
    assert Agree(db.bookings[id], db.seats[db.bookings[id].seat]);
  }

  // ---------------------------------------------------------------- what a call does when nothing interferes

  /** A reservation before its deadline, without a stored intent or with one that can be charged. */
  predicate Purchasable(b: Booking, t: Time) {
    b.status.Reserved? && t < b.expiresAt && (b.intent.None? || Usable(b.intent))
  }

  predicate Held(db: Db, b: Booking) {
    b.seat in db.seats && b.seat.event == b.event && Agree(b, db.seats[b.seat])
  }

  /** The booking with the intent a call ends up with: the stored one if there is one. */
  function WithIntent(b: Booking, intent: string): Booking {
    if b.intent.None? then b.(intent := Some(intent)) else b
  }

  /** The reservation with its deadline pushed out as an accepted purchase does. */
  function Extended(b: Booking, t: Time): Booking {
    b.(expiresAt := if t + PROCESSING_EXTENSION > b.expiresAt then t + PROCESSING_EXTENSION else b.expiresAt)
  }

  lemma ExtendOk(db: Db, id: BookingId, t: Time)
    requires id in db.bookings && Held(db, db.bookings[id])
    requires db.bookings[id].status.Reserved? && t < db.bookings[id].expiresAt
    ensures var r := ExtendTx(db, Clock(t, t, t), id, t + PROCESSING_EXTENSION, t);
            var b' := Extended(db.bookings[id], t);
            r.reply == Done(b') && id in r.db.bookings && r.db.bookings[id] == b' && Held(r.db, b')
  {
  }

  lemma RunNext(s: State, actions: seq<Action>, n: nat)
    requires n < |actions|
    ensures RunFrom(s, actions[..n + 1]) == Next(RunFrom(s, actions[..n]), actions[n])
  {
    assert actions[..n + 1][..n] == actions[..n];
  }

  /** Call `k` stands at `pc` on booking `id`, whose row is `b`. */
  ghost predicate Stands(s: State, k: CallId, id: BookingId, b: Booking, pc: Pc) {
    && id in s.db.bookings && s.db.bookings[id] == b && Held(s.db, b)
    && k in s.calls && s.calls[k] == Call(b.user, id, pc)
  }

  lemma StandsStep(s: State, k: CallId, id: BookingId, b: Booking, pc: Pc, a: Event, pc': Pc)
    requires Stands(s, k, id, b, pc) && AdvanceCall(s, k, a).db == s.db
    requires AdvanceCall(s, k, a).calls == s.calls[k := s.calls[k].(pc := pc')]
    ensures Stands(Next(s, Advance(k, a)), k, id, b, pc')
  {
  }

  lemma StandsTx(s: State, k: CallId, id: BookingId, b: Booking, pc: Pc, c: Clock, b': Booking)
    requires Stands(s, k, id, b, pc) && TxOf(s.calls[k], c).Some? && b'.user == b.user
    requires var r := Apply(s.db, TxOf(s.calls[k], c).value);
             id in r.db.bookings && r.db.bookings[id] == b' && r.reply == Done(b') && Held(r.db, b')
    ensures Stands(Next(s, Advance(k, Proceed(c))), k, id, b', AfterTx(pc, Done(b')))
  {
  }

  lemma LoneExtends(s: State, k: CallId, id: BookingId, t: Time)
    requires id in s.db.bookings && Held(s.db, s.db.bookings[id]) && k !in s.calls
    requires s.db.bookings[id].status.Reserved? && t < s.db.bookings[id].expiresAt
    ensures var b, go := s.db.bookings[id], Advance(k, Proceed(Clock(t, t, t)));
            Stands(Next(Next(Next(s, StartCall(k, b.user, id)), go), go), k, id, Extended(b, t),
                   Ensuring(Extended(b, t), false))
  {
    var b, go := s.db.bookings[id], Proceed(Clock(t, t, t));
    var s1 := Next(s, StartCall(k, b.user, id));
    StandsStep(s1, k, id, b, Finding, go, Extending);
    var s2 := Next(s1, Advance(k, go));
    ExtendOk(s2.db, id, t);
    StandsTx(s2, k, id, b, Extending, Clock(t, t, t), Extended(b, t));
  }

  lemma LoneStores(s: State, k: CallId, id: BookingId, b: Booking, intent: string, c: Clock)
    requires Stands(s, k, id, b, Ensuring(b, false))
    requires b.status.Reserved? && (b.intent.None? || Usable(b.intent)) && !Blank(intent)
    ensures Stands(Next(Next(s, Advance(k, Prepared(intent))), Advance(k, Proceed(c))),
                   k, id, WithIntent(b, intent), Completing)
  {
    if b.intent.None? {
      StandsStep(s, k, id, b, Ensuring(b, false), Prepared(intent), Storing(intent, false));
      var s1 := Next(s, Advance(k, Prepared(intent)));
      StandsTx(s1, k, id, b, Storing(intent, false), c, WithIntent(b, intent));
    } else {
      assert Next(s, Advance(k, Prepared(intent))) == s;
      StandsStep(s, k, id, b, Ensuring(b, false), Proceed(c), Completing);
    }
  }

  lemma LonePays(s: State, k: CallId, id: BookingId, b: Booking, t: Time)
    requires Stands(s, k, id, b, Completing) && b.status.Reserved? && Usable(b.intent) && t < b.expiresAt
    ensures var s2 := Next(Next(s, Advance(k, Proceed(Clock(t, t, t)))), Advance(k, PaymentSucceeded));
            && Stands(s2, k, id, b.(status := Purchased, purchasedAt := Some(t)), Ended(true))
            && id in s2.confirmed && s2.confirmed[id] == b.intent.value
  {
    var c, b' := Clock(t, t, t), b.(status := Purchased, purchasedAt := Some(t));
    StandsTx(s, k, id, b, Completing, c, b');
    var s1 := Next(s, Advance(k, Proceed(c)));
    StandsStep(s1, k, id, b', Charging(b.intent, false), PaymentSucceeded, Ended(true));
  }

  /** One call on a booking: find, extend, prepare and store the intent, complete, charge. */
  function Purchasing(k: CallId, user: UserId, id: BookingId, intent: string, t: Time): seq<Action> {
    var go := Advance(k, Proceed(Clock(t, t, t)));
    [StartCall(k, user, id), go, go, Advance(k, Prepared(intent)), go, go, Advance(k, PaymentSucceeded)]
  }

  /** Steps of a short run, written out. */
  lemma SevenSteps(s: State, actions: seq<Action>)
    requires |actions| == 7
    ensures RunFrom(s, actions) == Next(Next(Next(Next(Next(Next(Next(s, actions[0]), actions[1]), actions[2]),
                                                         actions[3]), actions[4]), actions[5]), actions[6])
  {
    forall n: nat | n < 7 ensures RunFrom(s, actions[..n + 1]) == Next(RunFrom(s, actions[..n]), actions[n]) {
      RunNext(s, actions, n);
    }
    assert actions[..7] == actions;
    assert RunFrom(s, actions[..0]) == s;
  }

  /**
   From any state with a purchasable booking its owner's call, left alone, ends in success: the booking
   is purchased with at least two more minutes on its deadline, its seat sold, and the intent it stored
   before, or else the one just prepared, is confirmed.
   */
  lemma {:induction false} OwnerBuys(s: State, k: CallId, id: BookingId, intent: string, t: Time)
    requires Inv(s.db) && id in s.db.bookings && Purchasable(s.db.bookings[id], t) && !Blank(intent) && k !in s.calls
    ensures var b := s.db.bookings[id];
            var s' := RunFrom(s, Purchasing(k, b.user, id, intent, t));
            && k in s'.calls && s'.calls[k].pc == Ended(true)
            && IsPurchased(s'.db, id) && s'.db.bookings[id].expiresAt >= t + 120
            && b.seat in s'.db.seats && s'.db.seats[b.seat].status.Sold?
            && id in s'.confirmed && Some(s'.confirmed[id]) == s'.db.bookings[id].intent
            && s'.confirmed[id] == if b.intent.Some? then b.intent.value else intent
  {
    var b, actions := s.db.bookings[id], Purchasing(k, s.db.bookings[id].user, id, intent, t);
    assert Held(s.db, b);
    SevenSteps(s, actions);
    var s3 := Next(Next(Next(s, actions[0]), actions[1]), actions[2]);
    LoneExtends(s, k, id, t);
    LoneStores(s3, k, id, Extended(b, t), intent, Clock(t, t, t));
    var s5 := Next(Next(s3, actions[3]), actions[4]);
    LonePays(s5, k, id, WithIntent(Extended(b, t), intent), t);
  }

  lemma ReleaseOk(db: Db, id: BookingId, t: Time)
    requires id in db.bookings && Held(db, db.bookings[id])
    requires db.bookings[id].status.Reserved? && db.bookings[id].expiresAt < t
    ensures var b, db' := db.bookings[id], ReleaseTx(db, Clock(t, t, t), id, BookingStatus.Expired, true).db;
            && id in db'.bookings && db'.bookings[id] == b.(status := BookingStatus.Expired)
            && b.seat in db'.seats && db'.seats[b.seat] == FREE
  {
  }

  lemma FirstLook(s: State, k: CallId, t: Time)
    requires k in s.calls && s.calls[k].pc == Finding && s.calls[k].id in s.db.bookings
    requires var b := s.db.bookings[s.calls[k].id]; b.user == s.calls[k].user && b.status.Reserved?
    ensures Next(s, Advance(k, Proceed(Clock(t, t, t))))
         == At(s, k, if s.db.bookings[s.calls[k].id].expiresAt < t then ReleasingOverdue else Extending)
  {
  }

  lemma SecondStep(s: State, k: CallId, c: Clock)
    requires k in s.calls && (s.calls[k].pc.ReleasingOverdue? || s.calls[k].pc.Extending?)
    ensures var s' := Next(s, Advance(k, Proceed(c)));
            var id := s.calls[k].id;
            if s.calls[k].pc.ReleasingOverdue? then
              && s'.db == ReleaseTx(s.db, c, id, BookingStatus.Expired, true).db
              && k in s'.calls && s'.calls[k].pc == Ended(false)
            else
              s'.db == ExtendTx(s.db, c, id, c.start + PROCESSING_EXTENSION, c.start).db
  {
  }

  lemma ExtendKeepsStatus(db: Db, c: Clock, id: BookingId, until: Time, entered: Time)
    requires id in db.bookings
    ensures var db' := ExtendTx(db, c, id, until, entered).db;
            id in db'.bookings && db'.bookings[id].status == db.bookings[id].status
  {
  }

  ghost predicate AtReservation(s: State, k: CallId) {
    && k in s.calls && s.calls[k].id in s.db.bookings
    && var b := s.db.bookings[s.calls[k].id]; b.user == s.calls[k].user && b.status.Reserved? && Held(s.db, b)
  }

  /**
   A call of the owner on a reservation releases it exactly if it finds the deadline passed; then the
   booking is expired, its seat free, and the call fails.
   */
  lemma {:induction false} OverdueIsReleased(s: State, k: CallId, t: Time)
    requires AtReservation(s, k) && s.calls[k].pc == Finding
    ensures var id, go := s.calls[k].id, Advance(k, Proceed(Clock(t, t, t)));
            var b, s' := s.db.bookings[id], Next(Next(s, go), go);
            && id in s'.db.bookings && (s'.db.bookings[id].status.Expired? <==> b.expiresAt < t)
            && (b.expiresAt < t ==>
                  && k in s'.calls && s'.calls[k].pc == Ended(false)
                  && b.seat in s'.db.seats && s'.db.seats[b.seat] == FREE)
  {
    var id, c := s.calls[k].id, Clock(t, t, t);
    FirstLook(s, k, t);
    SecondStep(Next(s, Advance(k, Proceed(c))), k, c);
    if s.db.bookings[id].expiresAt < t {
      ReleaseOk(s.db, id, t);
    } else {
      ExtendKeepsStatus(s.db, c, id, t + PROCESSING_EXTENSION, t);
    }
  }

  /** When the completion of a booking is refused as no longer reserved, the call looks at it once more. */
  lemma {:induction false} RefusedCompletion(s: State, k: CallId, c: Clock)
    requires k in s.calls && s.calls[k].pc == Completing && s.calls[k].id in s.db.bookings
    ensures var b := s.db.bookings[s.calls[k].id];
            var s' := Next(s, Advance(k, Proceed(c)));
            && k in s'.calls
            && (s'.calls[k].pc == Rechecking <==>
                  && !b.status.Purchased?
                  && (b.status.Reserved? ==> c.first <= b.expiresAt && b.expiresAt <= c.start))
            && (s'.calls[k].pc.Charging? <==>
                  b.status.Purchased? || (b.status.Reserved? && c.first <= b.expiresAt && c.start < b.expiresAt))
            && (s'.calls[k].pc.Charging? || s'.calls[k].pc == Rechecking || s'.calls[k].pc == Ended(false))
  {
  }

  /**
   A call that then finds the booking purchased after all pays for it, with the intent it stores or else
   the one just prepared; if that payment fails the purchase is left alone, for it is not the call's own.
   */
  lemma {:induction false} FinishesPurchased(s: State, k: CallId, id: BookingId, b: Booking, intent: string, c: Clock)
    requires Stands(s, k, id, b, Rechecking) && b.status.Purchased?
    requires (b.intent.None? || Usable(b.intent)) && !Blank(intent)
    ensures var go := Advance(k, Proceed(c));
            var s3 := Next(Next(Next(s, go), Advance(k, Prepared(intent))), go);
            var paid, unpaid := Next(s3, Advance(k, PaymentSucceeded)), Next(s3, Advance(k, PaymentFailed));
            && Stands(paid, k, id, WithIntent(b, intent), Ended(true))
            && id in paid.confirmed && Some(paid.confirmed[id]) == WithIntent(b, intent).intent
            && Stands(unpaid, k, id, WithIntent(b, intent), Ended(false)) && unpaid.confirmed == s.confirmed
  {
    StandsStep(s, k, id, b, Rechecking, Proceed(c), Ensuring(b, true));
    var s1 := Next(s, Advance(k, Proceed(c)));
    FinishStores(s1, k, id, b, intent, c);
    var s3 := Next(Next(s1, Advance(k, Prepared(intent))), Advance(k, Proceed(c)));
    var b' := WithIntent(b, intent);
    StandsStep(s3, k, id, b', Charging(b'.intent, true), PaymentSucceeded, Ended(true));
    StandsStep(s3, k, id, b', Charging(b'.intent, true), PaymentFailed, Ended(false));
  }

  lemma FinishStores(s: State, k: CallId, id: BookingId, b: Booking, intent: string, c: Clock)
    requires Stands(s, k, id, b, Ensuring(b, true)) && b.status.Purchased?
    requires (b.intent.None? || Usable(b.intent)) && !Blank(intent)
    ensures var s2 := Next(Next(s, Advance(k, Prepared(intent))), Advance(k, Proceed(c)));
            var b' := WithIntent(b, intent);
            Stands(s2, k, id, b', Charging(b'.intent, true)) && s2.confirmed == s.confirmed
  {
    if b.intent.None? {
      StandsStep(s, k, id, b, Ensuring(b, true), Prepared(intent), Storing(intent, true));
      var s1 := Next(s, Advance(k, Prepared(intent)));
      StandsTx(s1, k, id, b, Storing(intent, true), c, WithIntent(b, intent));
    } else {
      assert Next(s, Advance(k, Prepared(intent))) == s;
      StandsStep(s, k, id, b, Ensuring(b, true), Proceed(c), Charging(b.intent, true));
    }
  }

  /** An error of the database or the provider, outside the payment itself, ends the call and changes nothing. */
  lemma FaultEndsCall(s: State, k: CallId)
    requires k in s.calls && !s.calls[k].pc.Ended? && !s.calls[k].pc.Charging?
    ensures var s' := Next(s, Advance(k, Fault));
            && s'.db == s.db && s'.confirmed == s.confirmed
            && s'.calls == s.calls[k := s.calls[k].(pc := Ended(false))]
            && s'.stranded == if s.calls[k].pc.Reverting? then s.stranded + {s.calls[k].id} else s.stranded
  {
  }

  /** The others are free to run any transactions but a purchase's own, in any order. */
  lemma {:induction false} OthersAreFree(ops: seq<Op>) returns (actions: seq<Action>)
    requires forall op <- ops :: !op.request.SetIntent? && !op.request.Complete? && !op.request.Revert?
    ensures RunFrom(START, actions) == START.(db := Run(EMPTY, ops))
  {
    if ops == [] {
      actions := [];
    } else {
      var front, op := ops[..|ops| - 1], ops[|ops| - 1];
      assert op in ops && forall x :: x in front ==> x in ops;
      actions := OthersAreFree(front);
      assert (actions + [Others(op)])[..|actions|] == actions;
      actions := actions + [Others(op)];
    }
  }

  // ---------------------------------------------------------------- why one at a time

  /**
   Two overlapping calls on one booking. The second completes idempotently after the first, the
   first payment attempt fails, the second succeeds, and then the first call reverts the purchase.
   */
  function Overlap(k: CallId, m: CallId, user: UserId, id: BookingId, intent: string, c: Clock): seq<Action> {
    [ StartCall(k, user, id), StartCall(m, user, id),
      Advance(k, Proceed(c)), Advance(m, Proceed(c)),       // find
      Advance(k, Proceed(c)), Advance(m, Proceed(c)),       // extend
      Advance(k, Prepared(intent)), Advance(k, Proceed(c)), // prepare and store the intent
      Advance(m, Prepared(intent)), Advance(m, Proceed(c)), // the second call finds it stored
      Advance(k, Proceed(c)), Advance(m, Proceed(c)),       // complete
      Advance(k, PaymentFailed), Advance(m, PaymentSucceeded),
      Advance(k, Proceed(c)) ]                              // revert
  }

  /** Calls `k` and `m` stand at `pk` and `pm` on booking `id`, whose row is `b`. */
  ghost predicate Pair(s: State, k: CallId, m: CallId, id: BookingId, b: Booking, pk: Pc, pm: Pc) {
    k != m && Stands(s, k, id, b, pk) && Stands(s, m, id, b, pm)
  }

  lemma PairStep(s: State, k: CallId, m: CallId, id: BookingId, b: Booking, pk: Pc, pm: Pc, a: Event, pk': Pc)
    requires Pair(s, k, m, id, b, pk, pm) && AdvanceCall(s, k, a).db == s.db
    requires AdvanceCall(s, k, a).calls == s.calls[k := s.calls[k].(pc := pk')]
    ensures Pair(Next(s, Advance(k, a)), k, m, id, b, pk', pm)
  {
  }

  lemma PairTx(s: State, k: CallId, m: CallId, id: BookingId, b: Booking, pk: Pc, pm: Pc, c: Clock, b': Booking)
    requires Pair(s, k, m, id, b, pk, pm) && TxOf(s.calls[k], c).Some? && b'.user == b.user
    requires var r := Apply(s.db, TxOf(s.calls[k], c).value);
             id in r.db.bookings && r.db.bookings[id] == b' && r.reply == Done(b') && Held(r.db, b')
    ensures Pair(Next(s, Advance(k, Proceed(c))), k, m, id, b', AfterTx(pk, Done(b')), pm)
    ensures Next(s, Advance(k, Proceed(c))).confirmed == s.confirmed
  {
  }

  /** Both calls find the reservation and extend it. */
  lemma OverlapExtends(s: State, k: CallId, m: CallId, id: BookingId, t: Time) returns (b: Booking)
    requires id in s.db.bookings && Held(s.db, s.db.bookings[id])
    requires s.db.bookings[id].status.Reserved? && t < s.db.bookings[id].expiresAt
    requires k != m && k !in s.calls && m !in s.calls
    ensures b.status.Reserved? && b.intent == s.db.bookings[id].intent
    ensures t < b.expiresAt && b.user == s.db.bookings[id].user
    ensures var go := Proceed(Clock(t, t, t));
            var s2 := Next(Next(s, StartCall(k, b.user, id)), StartCall(m, b.user, id));
            var s4 := Next(Next(s2, Advance(k, go)), Advance(m, go));
            var s6 := Next(Next(s4, Advance(k, go)), Advance(m, go));
            Pair(s6, k, m, id, b, Ensuring(b, false), Ensuring(b, false))
  {
    var c := Clock(t, t, t);
    var b0 := s.db.bookings[id];
    var s2 := Next(Next(s, StartCall(k, b0.user, id)), StartCall(m, b0.user, id));
    PairStep(s2, k, m, id, b0, Finding, Finding, Proceed(c), Extending);
    var s3 := Next(s2, Advance(k, Proceed(c)));
    PairStep(s3, m, k, id, b0, Finding, Extending, Proceed(c), Extending);
    var s4 := Next(s3, Advance(m, Proceed(c)));
    ExtendOk(s4.db, id, t);
    b := Extended(b0, t);
    PairTx(s4, k, m, id, b0, Extending, Extending, c, b);
    var s5 := Next(s4, Advance(k, Proceed(c)));
    ExtendOk(s5.db, id, t);
    PairTx(s5, m, k, id, b, Extending, Ensuring(b, false), c, b);
  }

  /** One of them stores the intent and the other finds it stored, or both find it stored. */
  lemma OverlapStores(s: State, k: CallId, m: CallId, id: BookingId, b: Booking, intent: string, c: Clock)
    requires Pair(s, k, m, id, b, Ensuring(b, false), Ensuring(b, false))
    requires b.status.Reserved? && (b.intent.None? || Usable(b.intent)) && !Blank(intent)
    ensures var s2 := Next(Next(s, Advance(k, Prepared(intent))), Advance(k, Proceed(c)));
            var s4 := Next(Next(s2, Advance(m, Prepared(intent))), Advance(m, Proceed(c)));
            Pair(s4, k, m, id, WithIntent(b, intent), Completing, Completing)
  {
    if b.intent.None? {
      OverlapStoresNew(s, k, m, id, b, intent, c);
    } else {
      var s2 := Next(Next(s, Advance(k, Prepared(intent))), Advance(k, Proceed(c)));
      assert Next(s, Advance(k, Prepared(intent))) == s;
      PairStep(s, k, m, id, b, Ensuring(b, false), Ensuring(b, false), Proceed(c), Completing);
      assert Next(s2, Advance(m, Prepared(intent))) == s2;
      PairStep(s2, m, k, id, b, Ensuring(b, false), Completing, Proceed(c), Completing);
    }
  }

  lemma OverlapStoresNew(s: State, k: CallId, m: CallId, id: BookingId, b: Booking, intent: string, c: Clock)
    requires Pair(s, k, m, id, b, Ensuring(b, false), Ensuring(b, false))
    requires b.status.Reserved? && b.intent.None? && !Blank(intent)
    ensures var b' := b.(intent := Some(intent));
            var s2 := Next(Next(s, Advance(k, Prepared(intent))), Advance(k, Proceed(c)));
            var s4 := Next(Next(s2, Advance(m, Prepared(intent))), Advance(m, Proceed(c)));
            Pair(s4, k, m, id, b', Completing, Completing)
  {
    var b' := b.(intent := Some(intent));
    PairStep(s, k, m, id, b, Ensuring(b, false), Ensuring(b, false), Prepared(intent), Storing(intent, false));
    var s1 := Next(s, Advance(k, Prepared(intent)));
    PairTx(s1, k, m, id, b, Storing(intent, false), Ensuring(b, false), c, b');
    var s2 := Next(s1, Advance(k, Proceed(c)));
    PairStep(s2, m, k, id, b', Ensuring(b, false), Completing, Prepared(intent), Storing(intent, false));
    var s3 := Next(s2, Advance(m, Prepared(intent)));
    PairTx(s3, m, k, id, b', Storing(intent, false), Completing, c, b');
  }

  /** Both complete; one payment fails, the other succeeds; the purchase is reverted all the same. */
  lemma OverlapCharges(s: State, k: CallId, m: CallId, id: BookingId, b: Booking, t: Time)
    requires Pair(s, k, m, id, b, Completing, Completing) && b.status.Reserved? && Usable(b.intent) && t < b.expiresAt
    ensures var go := Proceed(Clock(t, t, t));
            var s2 := Next(Next(s, Advance(k, go)), Advance(m, go));
            var s4 := Next(Next(s2, Advance(k, PaymentFailed)), Advance(m, PaymentSucceeded));
            var s5 := Next(s4, Advance(k, go));
            id in s5.confirmed && id in s5.db.bookings && s5.db.bookings[id].status.Cancelled?
  {
    var c := Clock(t, t, t);
    var b' := b.(status := Purchased, purchasedAt := Some(t));
    PairTx(s, k, m, id, b, Completing, Completing, c, b');
    var s1 := Next(s, Advance(k, Proceed(c)));
    PairTx(s1, m, k, id, b', Completing, Charging(b.intent, false), c, b');
    var s2 := Next(s1, Advance(m, Proceed(c)));
    PairStep(s2, k, m, id, b', Charging(b.intent, false), Charging(b.intent, false), PaymentFailed, Reverting);
    var s3 := Next(s2, Advance(k, PaymentFailed));
    PairStep(s3, m, k, id, b', Charging(b.intent, false), Reverting, PaymentSucceeded, Ended(true));
    var s4 := Next(s3, Advance(m, PaymentSucceeded));
    PairTx(s4, k, m, id, b', Reverting, Ended(true), c, b'.(status := Cancelled, purchasedAt := None, intent := None));
  }

  /** A payment was confirmed and the booking it was for is cancelled. */
  predicate PaidAndCancelled(s: State, id: BookingId) {
    id in s.confirmed && id in s.db.bookings && s.db.bookings[id].status.Cancelled?
  }

  /** From any state with such a reservation the overlap ends with a paid, cancelled booking. */
  lemma {:induction false} OverlapChargesCancelledBooking(
    s: State, k: CallId, m: CallId, id: BookingId, intent: string, t: Time)
    requires Inv(s.db) && id in s.db.bookings && Purchasable(s.db.bookings[id], t) && !Blank(intent)
    requires k != m && k !in s.calls && m !in s.calls
    ensures PaidAndCancelled(RunFrom(s, Overlap(k, m, s.db.bookings[id].user, id, intent, Clock(t, t, t))), id)
  {
    var c := Clock(t, t, t);
    var actions := Overlap(k, m, s.db.bookings[id].user, id, intent, c);
    assert Held(s.db, s.db.bookings[id]);
    var b := OverlapExtends(s, k, m, id, t);
    OverlapRun(s, actions);
    var s6 := RunFrom(s, actions[..6]);
    OverlapStores(s6, k, m, id, b, intent, c);
    var s10 := RunFrom(s, actions[..10]);
    OverlapCharges(s10, k, m, id, WithIntent(b, intent), t);
  }

  lemma OverlapRun(s: State, actions: seq<Action>)
    requires |actions| == 15
    ensures RunFrom(s, actions[..6]) ==
              Next(Next(Next(Next(Next(Next(s, actions[0]), actions[1]), actions[2]), actions[3]), actions[4]),
                   actions[5])
    ensures RunFrom(s, actions[..10]) ==
              Next(Next(Next(Next(RunFrom(s, actions[..6]), actions[6]), actions[7]), actions[8]), actions[9])
    ensures RunFrom(s, actions) ==
              Next(Next(Next(Next(Next(RunFrom(s, actions[..10]), actions[10]), actions[11]), actions[12]),
                        actions[13]), actions[14])
  {
    forall n: nat | n < 15 ensures RunFrom(s, actions[..n + 1]) == Next(RunFrom(s, actions[..n]), actions[n]) {
      RunNext(s, actions, n);
    }
    assert actions[..15] == actions;
    assert RunFrom(s, actions[..0]) == s;
  }

  // ---------------------------------------------------------------- and when it cannot happen

  /** Every transaction of the run starts at `t` or later. */
  predicate Later(actions: seq<Action>, t: Time) {
    forall i :: 0 <= i < |actions| ==> StartsAt(actions[i], t)
  }

  predicate StartsAt(a: Action, t: Time) {
    match a
    case StartCall(_, _, _) => true
    case Advance(_, event) => event.Proceed? ==> t <= event.clock.start
    case Others(op) => t <= op.clock.start
  }

  /** The booking stores an intent that cannot be charged, or is over without one. */
  predicate Inert(b: Booking) {
    !Usable(b.intent) && (b.intent.Some? || !b.Live())
  }

  predicate InertAt(pc: Pc) {
    (pc.Ensuring? ==> !Usable(pc.seen.intent)) && (pc.Charging? ==> !Usable(pc.intent))
  }

  /** The booking is not reserved, or past its deadline. */
  predicate Shut(b: Booking, t: Time) {
    !b.status.Reserved? || b.expiresAt <= t
  }

  predicate ShutAt(pc: Pc) {
    pc.Finding? || pc.ReleasingOverdue? || pc.Extending? || pc.Ended?
  }

  ghost predicate AllAt(s: State, id: BookingId, inert: bool) {
    forall k <- s.calls :: s.calls[k].id == id ==> if inert then InertAt(s.calls[k].pc) else ShutAt(s.calls[k].pc)
  }

  /** No call can get to charging the booking. */
  ghost predicate Harmless(s: State, id: BookingId, t: Time, inert: bool) {
    && id in s.db.bookings && id !in s.confirmed && AllAt(s, id, inert)
    && if inert then Inert(s.db.bookings[id]) else Shut(s.db.bookings[id], t)
  }

  /** What any transaction does to a booking no call can charge. */
  lemma HarmlessTx(db: Db, op: Op, id: BookingId, t: Time)
    requires id in db.bookings && t <= op.clock.start
    ensures var db' := Apply(db, op).db;
            && id in db'.bookings
            && (Inert(db.bookings[id]) ==> Inert(db'.bookings[id]))
            && (Shut(db.bookings[id], t) && op.request != Complete(id) ==> Shut(db'.bookings[id], t))
  {
    match op.request
    case Reserve(_, _, _, _, _) =>
    case SetIntent(_, _) =>
    case Extend(_, _, _) =>
    case Complete(_) =>
    case Revert(_) =>
    case Expire(_) =>
    case Cancel(_) =>
    case CreateEvent(_, _, _) =>
    case SeedSeats(_) =>
  }

  /** Where the reply of a call's own transaction sends it. */
  lemma HarmlessReply(db: Db, call: Call, c: Clock, t: Time, inert: bool)
    requires call.id in db.bookings && t <= c.start && TxOf(call, c).Some?
    requires if inert then Inert(db.bookings[call.id]) && InertAt(call.pc)
             else Shut(db.bookings[call.id], t) && ShutAt(call.pc)
    ensures var pc := AfterTx(call.pc, Apply(db, TxOf(call, c).value).reply);
            if inert then InertAt(pc) else ShutAt(pc)
  {
  }

  lemma HarmlessAdvance(s: State, k: CallId, event: Event, id: BookingId, t: Time, inert: bool)
    requires Harmless(s, id, t, inert) && k in s.calls && StartsAt(Advance(k, event), t)
    ensures Harmless(AdvanceCall(s, k, event), id, t, inert)
  {
    var call := s.calls[k];
    match (call.pc, event)
    case (_, Proceed(c)) =>
      if TxOf(call, c).Some? {
        HarmlessTx(s.db, TxOf(call, c).value, id, t);
        if call.id == id {
          HarmlessReply(s.db, call, c, t, inert);
        }
      }
    case _ =>
  }

  lemma HarmlessNext(s: State, a: Action, id: BookingId, t: Time, inert: bool)
    requires Harmless(s, id, t, inert) && StartsAt(a, t)
    ensures Harmless(Next(s, a), id, t, inert)
  {
    match a
    case StartCall(k, user, other) =>
    case Advance(k, event) => if k in s.calls { HarmlessAdvance(s, k, event, id, t, inert); }
    case Others(op) => HarmlessTx(s.db, op, id, t);
  }

  lemma {:induction false} HarmlessRun(s: State, actions: seq<Action>, id: BookingId, t: Time, inert: bool)
    requires Harmless(s, id, t, inert) && Later(actions, t)
    ensures Harmless(RunFrom(s, actions), id, t, inert)
  {
    if actions != [] {
      var front := actions[..|actions| - 1];
      HarmlessRun(s, front, id, t, inert);
      HarmlessNext(RunFrom(s, front), actions[|actions| - 1], id, t, inert);
    }
  }

  /**
   From any state where the booking is not purchasable and no call is at it, however many calls overlap
   from then on, no payment for it is ever confirmed.
   */
  lemma {:induction false} NeverConfirmed(s: State, actions: seq<Action>, id: BookingId, t: Time)
    requires id in s.db.bookings && id !in s.confirmed && !InFlight(s, id)
    requires !Purchasable(s.db.bookings[id], t) && Later(actions, t)
    ensures id !in RunFrom(s, actions).confirmed
  {
    HarmlessRun(s, actions, id, t, !Shut(s.db.bookings[id], t));
  }

  /** Calls on the booking can end with a payment for a cancelled booking exactly if it is purchasable. */
  lemma {:induction false} OverlapExactly(s: State, id: BookingId, t: Time)
    requires Inv(s.db) && id in s.db.bookings && id !in s.confirmed && !InFlight(s, id)
    ensures (exists actions :: Later(actions, t) && PaidAndCancelled(RunFrom(s, actions), id))
            <==> Purchasable(s.db.bookings[id], t)
  {
    if Purchasable(s.db.bookings[id], t) {
      var actions := SomeOverlap(s, id, t);
    } else {
      forall actions | Later(actions, t) ensures !PaidAndCancelled(RunFrom(s, actions), id) {
        NeverConfirmed(s, actions, id, t);
      }
    }
  }

  lemma SomeOverlap(s: State, id: BookingId, t: Time) returns (actions: seq<Action>)
    requires Inv(s.db) && id in s.db.bookings && Purchasable(s.db.bookings[id], t)
    ensures Later(actions, t) && PaidAndCancelled(RunFrom(s, actions), id)
  {
    var k, m := TwoFresh(s.calls.Keys);
    var intent := SomeIntent();
    actions := Overlap(k, m, s.db.bookings[id].user, id, intent, Clock(t, t, t));
    OverlapLater(k, m, s.db.bookings[id].user, id, intent, t);
    OverlapChargesCancelledBooking(s, k, m, id, intent, t);
  }

  lemma SomeIntent() returns (intent: string)
    ensures !Blank(intent)
  {
    intent := "pi";
    assert intent[0] == 'p' && 'p' in intent;
  }

  lemma OverlapLater(k: CallId, m: CallId, user: UserId, id: BookingId, intent: string, t: Time)
    ensures Later(Overlap(k, m, user, id, intent, Clock(t, t, t)), t)
  {
  }

  lemma {:induction false} AboveAll(s: set<CallId>) returns (k: CallId)
    ensures forall x :: x in s ==> x < k
    decreases |s|
  {
    if s == {} {
      k := 0;
    } else {
      var x :| x in s;
      var y := AboveAll(s - {x});
      assert s == (s - {x}) + {x};
      k := if x < y then y else x + 1;
    }
  }

  lemma TwoFresh(s: set<CallId>) returns (k: CallId, m: CallId)
    ensures k != m && k !in s && m !in s
  {
    k := AboveAll(s);
    m := k + 1;
  }
}
