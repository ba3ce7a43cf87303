/**
 The WebSocket hub: one loop that registers clients, removes them and fans messages out to their
 buffered channels, dropping the slow ones, while every client subscribes, reads and leaves on its own.
 */
module HubLoop {
  import opened Prelude

  type ClientId = nat
  type EventId = nat

  /** A message without an event goes to everyone. */
  datatype Message = Message(event: Option<EventId>, body: int)

  const BROADCAST_QUEUE := 512
  const REGISTER_QUEUE := 64
  const UNREGISTER_QUEUE := 64
  const SEND_BUFFER := 256

  /**
   A client, its send channel and, for the record: what its writer has taken from the channel, how many
   messages the hub had processed when it registered, and whether each later one matched.
   */
  datatype Client = Client(buffer: seq<Message>, open: bool, events: set<EventId>,
                           received: seq<Message>, since: Option<nat>, verdicts: seq<bool>)
  {
    predicate Wants(m: Message) {
      m.event.None? || m.event.value in events
    }

    /** Everything ever sent to the channel. */
    function Log(): seq<Message> {
      received + buffer
    }
  }

  const NEW_CLIENT := Client([], true, {}, [], None, [])

  /** Where the hub loop is: waiting, or collecting, sending or dropping for the message in hand. */
  datatype Phase =
    | Idle
    | Collecting(m: Message, todo: set<ClientId>, recipients: set<ClientId>)
    | Sending(m: Message, todo: set<ClientId>, stale: set<ClientId>)
    | Dropping(m: Message, stale: set<ClientId>)
  {
    /** The client matched the message in hand and has not been sent it. */
    predicate Owes(c: ClientId) {
      match this
      case Idle => false
      case Collecting(_, _, recipients) => c in recipients
      case Sending(_, todo, stale) => c in todo + stale
      case Dropping(_, stale) => c in stale
    }

    predicate Unchecked(c: ClientId) {
      Collecting? && c in todo
    }

    function Mentioned(): set<ClientId> {
      match this
      case Idle => {}
      case Collecting(_, todo, recipients) => todo + recipients
      case Sending(_, todo, stale) => todo + stale
      case Dropping(_, stale) => stale
    }
  }

  /** `all` holds every client ever connected, `clients` those in the hub's map; `panicked` is the program crashing. */
  datatype Hub = Hub(all: map<ClientId, Client>, clients: set<ClientId>,
                     register: seq<ClientId>, unregister: seq<ClientId>, broadcast: seq<Message>,
                     phase: Phase, processed: seq<Message>, panicked: bool)

  const START := Hub(map[], {}, [], [], [], Idle, [], false)

  datatype Action =
    | Connect(c: ClientId)
    | Subscribe(c: ClientId, e: EventId)
    | Leave(c: ClientId)
    | Receive(c: ClientId)
    | Publish(m: Message)
    | TakeRegister
    | TakeUnregister
    | TakeBroadcast
    | Check(c: ClientId)
    | StartSending
    | Send(c: ClientId)
    | StartDropping
    | Drop(c: ClientId)
    | Finish
  {
    /** A step of the hub loop, not of a client or a publisher. */
    predicate OfHub() {
      !Connect? && !Subscribe? && !Leave? && !Receive? && !Publish?
    }
  }

  predicate Enabled(h: Hub, a: Action) {
    match a
    case Connect(c) => c !in h.all && |h.register| < REGISTER_QUEUE
    case Subscribe(c, _) => c in h.all
    case Leave(c) => c in h.all && |h.unregister| < UNREGISTER_QUEUE
    case Receive(c) => c in h.all && h.all[c].buffer != []
    case Publish(_) => true
    case TakeRegister => h.phase.Idle? && h.register != [] && h.register[0] in h.all
    case TakeUnregister => h.phase.Idle? && h.unregister != []
    case TakeBroadcast => h.phase.Idle? && h.broadcast != []
    case Check(c) => h.phase.Collecting? && c in h.phase.todo && c in h.all
    case StartSending => h.phase.Collecting? && h.phase.todo == {}
    case Send(c) => h.phase.Sending? && c in h.phase.todo && c in h.all
    case StartDropping => h.phase.Sending? && h.phase.todo == {}
    case Drop(c) => h.phase.Dropping? && c in h.phase.stale
    case Finish => h.phase.Dropping? && h.phase.stale == {}
  }

  /** delete and close; closing a closed channel panics. */
  function Removed(h: Hub, c: ClientId): Hub {
    if c in h.clients && c in h.all then
      h.(clients := h.clients - {c}, all := h.all[c := h.all[c].(open := false)],
         panicked := h.panicked || !h.all[c].open)
    else h
  }

  /** A non-blocking send: it goes through if there is room, and panics on a closed channel. */
  function SentTo(h: Hub, c: ClientId): Hub
    requires h.phase.Sending? && c in h.all
  {
    var k, m, todo := h.all[c], h.phase.m, h.phase.todo - {c};
    if !k.open then h.(panicked := true)
    else if |k.buffer| < SEND_BUFFER then
      h.(all := h.all[c := k.(buffer := k.buffer + [m])], phase := Sending(m, todo, h.phase.stale))
    else h.(phase := Sending(m, todo, h.phase.stale + {c}))
  }

  function Checked(h: Hub, c: ClientId): Hub
    requires h.phase.Collecting? && c in h.all
  {
    var k, m, todo := h.all[c], h.phase.m, h.phase.todo - {c};
    h.(all := h.all[c := k.(verdicts := k.verdicts + [k.Wants(m)])],
       phase := Collecting(m, todo, h.phase.recipients + if k.Wants(m) then {c} else {}))
  }

  function Apply(h: Hub, a: Action): Hub
    requires Enabled(h, a)
  {
    match a
    case Connect(c) => h.(all := h.all[c := NEW_CLIENT], register := h.register + [c])
    case Subscribe(c, e) => h.(all := h.all[c := h.all[c].(events := h.all[c].events + {e})])
    case Leave(c) => h.(unregister := h.unregister + [c])
    case Receive(c) =>
      var k := h.all[c];
      h.(all := h.all[c := k.(buffer := k.buffer[1..], received := k.received + [k.buffer[0]])])
    case Publish(m) => if |h.broadcast| < BROADCAST_QUEUE then h.(broadcast := h.broadcast + [m]) else h
    case TakeRegister =>
      var c := h.register[0];
      h.(register := h.register[1..], clients := h.clients + {c},
         all := h.all[c := h.all[c].(since := Some(|h.processed|))])
    case TakeUnregister => Removed(h.(unregister := h.unregister[1..]), h.unregister[0])
    case TakeBroadcast =>
      var m := h.broadcast[0];
      h.(broadcast := h.broadcast[1..], processed := h.processed + [m], phase := Collecting(m, h.clients, {}))
    case Check(c) => Checked(h, c)
    case StartSending => h.(phase := Sending(h.phase.m, h.phase.recipients, {}))
    case Send(c) => SentTo(h, c)
    case StartDropping => h.(phase := if h.phase.stale == {} then Idle else Dropping(h.phase.m, h.phase.stale))
    case Drop(c) => Removed(h.(phase := Dropping(h.phase.m, h.phase.stale - {c})), c)
    case Finish => h.(phase := Idle)
  }

  function Step(h: Hub, a: Action): Hub {
    if Enabled(h, a) then Apply(h, a) else h
  }

  function Run(h: Hub, actions: seq<Action>): Hub {
    if actions == [] then h else Step(Run(h, actions[..|actions| - 1]), actions[|actions| - 1])
  }

  // ---------------------------------------------------------------- what every step keeps

  /** The messages that matched, in order. */
  function Matched(ms: seq<Message>, verdicts: seq<bool>): seq<Message>
    requires |ms| == |verdicts|
  {
    if ms == [] then []
    else
      var n := |ms| - 1;
      Matched(ms[..n], verdicts[..n]) + if verdicts[n] then [ms[n]] else []
  }

  /** The messages checked against the client since it registered, and those that matched. */
  function Due(h: Hub, k: Client): seq<Message>
    requires k.since.Some? && k.since.value + |k.verdicts| <= |h.processed|
  {
    Matched(h.processed[k.since.value..k.since.value + |k.verdicts|], k.verdicts)
  }

  /** A client before its registration. */
  predicate Fresh(k: Client) {
    k.open && k.since.None? && k.buffer == [] && k.received == [] && k.verdicts == []
  }

  /** A client in the map is open, and its channel was sent all it is due but the message in hand. */
  predicate Served(h: Hub, c: ClientId, k: Client) {
    && k.open && k.since.Some?
    && k.since.value + |k.verdicts| + (if h.phase.Unchecked(c) then 1 else 0) == |h.processed|
    && (if h.phase.Owes(c) && h.phase != Idle then k.Log() + [h.phase.m] == Due(h, k) else k.Log() == Due(h, k))
  }

  /** A client that was removed is closed, and its channel was sent a first part of what it was due. */
  predicate Gone(h: Hub, k: Client) {
    && !k.open && k.since.Some?
    && k.since.value + |k.verdicts| <= |h.processed|
    && k.Log() <= Due(h, k)
  }

  predicate ClientInv(h: Hub, c: ClientId)
    requires c in h.all
  {
    var k := h.all[c];
    && |k.buffer| <= SEND_BUFFER
    && (c in h.register ==> c !in h.clients && Fresh(k))
    && (if c in h.clients then Served(h, c, k) else Fresh(k) || Gone(h, k))
  }

  predicate QueuesInv(h: Hub) {
    && !h.panicked
    && h.clients <= h.all.Keys && h.phase.Mentioned() <= h.clients
    && (forall i, j :: 0 <= i < j < |h.register| ==> h.register[i] != h.register[j])
    && (forall c :: c in h.register ==> c in h.all)
    && (!h.phase.Idle? ==> h.processed != [] && h.processed[|h.processed| - 1] == h.phase.m)
    && (h.phase.Collecting? ==> h.phase.todo !! h.phase.recipients)
    && (h.phase.Sending? ==> h.phase.todo !! h.phase.stale)
  }

  predicate Inv(h: Hub) {
    QueuesInv(h) && forall c :: c in h.all ==> ClientInv(h, c)
  }

  lemma MatchedSnoc(ms: seq<Message>, m: Message, verdicts: seq<bool>, v: bool)
    requires |ms| == |verdicts|
    ensures Matched(ms + [m], verdicts + [v]) == Matched(ms, verdicts) + if v then [m] else []
  {
    assert (ms + [m])[..|ms|] == ms && (verdicts + [v])[..|ms|] == verdicts;
  }

  /** What a client is due depends on the messages and on what was checked, nothing else. */
  lemma DueStays(h: Hub, next: Hub, k: Client, l: Client)
    requires k.since.Some? && k.since.value + |k.verdicts| <= |h.processed|
    requires l.since == k.since && l.verdicts == k.verdicts && h.processed <= next.processed
    ensures Due(next, l) == Due(h, k)
  {
    var a, b := k.since.value, k.since.value + |k.verdicts|;
    assert h.processed[a..b] == next.processed[a..b];
  }

  /** A step that leaves alone what concerns a client: its log, what was checked, and what it is owed. */
  lemma Undisturbed(h: Hub, next: Hub, c: ClientId)
    requires c in h.all && c in next.all && ClientInv(h, c) && h.processed <= next.processed
    requires var k, l := h.all[c], next.all[c];
             && l.open == k.open && l.since == k.since && l.verdicts == k.verdicts && l.Log() == k.Log()
             && |l.buffer| <= |k.buffer| && |l.received| >= |k.received|
    requires c in next.register ==> c in h.register
    requires c in next.clients <==> c in h.clients
    requires c in h.clients ==>
               && (next.phase.Unchecked(c) <==> h.phase.Unchecked(c) || |next.processed| == |h.processed| + 1)
               && |next.processed| <= |h.processed| + (if h.phase.Unchecked(c) then 0 else 1)
               && (next.phase.Owes(c) <==> h.phase.Owes(c))
               && (h.phase.Owes(c) ==> next.phase.m == h.phase.m)
    ensures ClientInv(next, c)
  {
    if h.all[c].since.Some? {
      DueStays(h, next, h.all[c], next.all[c]);
    }
  }

  /** The steps of the clients themselves and of those who publish. */
  lemma OthersClient(h: Hub, a: Action, c: ClientId)
    requires QueuesInv(h) && c in h.all && ClientInv(h, c) && Enabled(h, a)
    requires a.Connect? || a.Subscribe? || a.Leave? || a.Receive? || a.Publish?
    ensures ClientInv(Apply(h, a), c)
  {
    if a == Receive(c) {
      ReceiveOwn(h, c);
    } else {
      Undisturbed(h, Apply(h, a), c);
    }
  }

  lemma ReceiveOwn(h: Hub, c: ClientId)
    requires QueuesInv(h) && c in h.all && ClientInv(h, c) && Enabled(h, Receive(c))
    ensures ClientInv(Apply(h, Receive(c)), c)
  {
    var k := h.all[c];
    assert k.buffer == [k.buffer[0]] + k.buffer[1..];
    assert Apply(h, Receive(c)).all[c].Log() == k.Log();
    Undisturbed(h, Apply(h, Receive(c)), c);
  }

  lemma RegisterClient(h: Hub, c: ClientId)
    requires QueuesInv(h) && c in h.all && ClientInv(h, c) && Enabled(h, TakeRegister)
    ensures ClientInv(Apply(h, TakeRegister), c)
  {
    if c != h.register[0] {
      Undisturbed(h, Apply(h, TakeRegister), c);
    }
  }

  lemma RemovalClient(h: Hub, who: ClientId, c: ClientId)
    requires QueuesInv(h) && c in h.all && ClientInv(h, c) && (h.phase.Owes(who) ==> h.phase.Dropping?)
    ensures var next := Removed(h, who); ClientInv(next, c) && (c == who ==> c !in next.clients)
  {
    if c == who && c in h.clients {
      DueStays(h, Removed(h, who), h.all[c], Removed(h, who).all[c]);
    } else {
      Undisturbed(h, Removed(h, who), c);
    }
  }

  lemma DropClient(h: Hub, who: ClientId, c: ClientId)
    requires QueuesInv(h) && c in h.all && ClientInv(h, c) && Enabled(h, Drop(who))
    ensures ClientInv(Apply(h, Drop(who)), c)
  {
    var next := Apply(h, Drop(who));
    if c == who {
      DueStays(h, next, h.all[c], next.all[c]);
    } else {
      Undisturbed(h, next, c);
    }
  }

  lemma BroadcastClient(h: Hub, c: ClientId)
    requires QueuesInv(h) && c in h.all && ClientInv(h, c) && Enabled(h, TakeBroadcast)
    ensures ClientInv(Apply(h, TakeBroadcast), c)
  {
    Undisturbed(h, Apply(h, TakeBroadcast), c);
  }

  lemma DueGrows(h: Hub, k: Client, verdict: bool)
    requires k.since.Some? && k.since.value + |k.verdicts| + 1 == |h.processed|
    ensures Due(h, k.(verdicts := k.verdicts + [verdict]))
         == Due(h, k) + if verdict then [h.processed[|h.processed| - 1]] else []
  {
    var a, b := k.since.value, k.since.value + |k.verdicts|;
    assert h.processed[a..b + 1] == h.processed[a..b] + [h.processed[b]];
    MatchedSnoc(h.processed[a..b], h.processed[b], k.verdicts, verdict);
  }

  lemma CheckOwn(h: Hub, c: ClientId)
    requires QueuesInv(h) && c in h.all && ClientInv(h, c) && Enabled(h, Check(c))
    ensures ClientInv(Apply(h, Check(c)), c)
  {
    DueGrows(h, h.all[c], h.all[c].Wants(h.phase.m));
  }

  lemma CheckOther(h: Hub, who: ClientId, c: ClientId)
    requires QueuesInv(h) && c in h.all && ClientInv(h, c) && Enabled(h, Check(who)) && c != who
    ensures ClientInv(Apply(h, Check(who)), c)
  {
    Undisturbed(h, Apply(h, Check(who)), c);
  }

  lemma SendOwn(h: Hub, c: ClientId)
    requires QueuesInv(h) && c in h.all && ClientInv(h, c) && Enabled(h, Send(c))
    ensures ClientInv(Apply(h, Send(c)), c)
  {
    var k, next := h.all[c], Apply(h, Send(c));
    if |k.buffer| < SEND_BUFFER {
      assert next.all[c].Log() == k.Log() + [h.phase.m];
      DueStays(h, next, k, next.all[c]);
    } else {
      Undisturbed(h, next, c);
    }
  }

  lemma SendOther(h: Hub, who: ClientId, c: ClientId)
    requires QueuesInv(h) && c in h.all && ClientInv(h, c) && Enabled(h, Send(who)) && c != who
    ensures ClientInv(Apply(h, Send(who)), c)
  {
    Undisturbed(h, Apply(h, Send(who)), c);
  }

  lemma PhaseClient(h: Hub, a: Action, c: ClientId)
    requires QueuesInv(h) && c in h.all && ClientInv(h, c) && Enabled(h, a)
    requires a.StartSending? || a.StartDropping? || a.Finish?
    ensures ClientInv(Apply(h, a), c)
  {
    Undisturbed(h, Apply(h, a), c);
  }

  lemma ClientStep(h: Hub, a: Action, c: ClientId)
    requires QueuesInv(h) && c in h.all && ClientInv(h, c) && Enabled(h, a)
    ensures ClientInv(Apply(h, a), c)
  {
    match a
    case Connect(_) => OthersClient(h, a, c);
    case Subscribe(_, _) => OthersClient(h, a, c);
    case Leave(_) => OthersClient(h, a, c);
    case Receive(_) => OthersClient(h, a, c);
    case Publish(_) => OthersClient(h, a, c);
    case TakeRegister => RegisterClient(h, c);
    case TakeUnregister => RemovalClient(h.(unregister := h.unregister[1..]), h.unregister[0], c);
    case TakeBroadcast => BroadcastClient(h, c);
    case Check(who) => if who == c { CheckOwn(h, c); } else { CheckOther(h, who, c); }
    case StartSending => PhaseClient(h, a, c);
    case Send(who) => if who == c { SendOwn(h, c); } else { SendOther(h, who, c); }
    case StartDropping => PhaseClient(h, a, c);
    case Drop(who) => DropClient(h, who, c);
    case Finish => PhaseClient(h, a, c);
  }

  /** The queues and the phase; `who` is the client the hub loop is about to close or send to. */
  lemma QueuesStep(h: Hub, a: Action)
    requires Inv(h) && Enabled(h, a)
    ensures QueuesInv(Apply(h, a))
  {
    if a.TakeUnregister? && h.unregister[0] in h.clients {
      assert ClientInv(h, h.unregister[0]);
    } else if a.Send? || a.Drop? {
      assert ClientInv(h, a.c);
    } else if a.TakeRegister? {
      assert ClientInv(h, h.register[0]);
    }
  }

  lemma StepKeepsInv(h: Hub, a: Action)
    requires Inv(h)
    ensures Inv(Step(h, a))
  {
    if Enabled(h, a) {
      QueuesStep(h, a);
      forall c | c in Apply(h, a).all ensures ClientInv(Apply(h, a), c) {
        if c in h.all {
          ClientStep(h, a, c);
        }
      }
    }
  }

  lemma {:induction false} RunKeepsInv(h: Hub, actions: seq<Action>)
    requires Inv(h)
    ensures Inv(Run(h, actions))
  {
    if actions != [] {
      RunKeepsInv(h, actions[..|actions| - 1]);
      StepKeepsInv(Run(h, actions[..|actions| - 1]), actions[|actions| - 1]);
    }
  }

  lemma Reached(actions: seq<Action>)
    ensures Inv(Run(START, actions))
  {
    assert Inv(START);
    RunKeepsInv(START, actions);
  }

  /** In every run no channel is closed twice and nothing is sent to a closed one, and no buffer overflows. */
  lemma NeverPanics(actions: seq<Action>)
    ensures !Run(START, actions).panicked
    ensures forall c :: c in Run(START, actions).all ==> |Run(START, actions).all[c].buffer| <= 256
  {
    Reached(actions);
    forall c | c in Run(START, actions).all ensures |Run(START, actions).all[c].buffer| <= 256 {
      assert ClientInv(Run(START, actions), c);
    }
  }

  /** The client was sent exactly what matched since it registered, in order and with no gap. */
  predicate UpToDate(h: Hub, c: ClientId) {
    && c in h.all
    && var k := h.all[c];
       && k.open && k.since.Some? && k.since.value + |k.verdicts| == |h.processed|
       && k.received + k.buffer == Matched(h.processed[k.since.value..], k.verdicts)
  }

  lemma IdleUpToDate(h: Hub, c: ClientId)
    requires QueuesInv(h) && h.phase.Idle? && c in h.clients && ClientInv(h, c)
    ensures UpToDate(h, c)
  {
    var a := h.all[c].since.value;
    assert h.processed[a..|h.processed|] == h.processed[a..];
  }

  /**
   Between messages, a client still in the map has been sent exactly the messages processed since it
   registered that matched its subscriptions when they were checked, in order and with no gap.
   */
  lemma InOrderNoGap(actions: seq<Action>, c: ClientId)
    requires Run(START, actions).phase.Idle? && c in Run(START, actions).clients
    ensures UpToDate(Run(START, actions), c)
  {
    Reached(actions);
    var h := Run(START, actions);
    assert c in h.all && ClientInv(h, c);
    IdleUpToDate(h, c);
  }

  /** A client that was dropped or left was sent the same messages up to some point. */
  lemma RemovedSawAPrefix(actions: seq<Action>, c: ClientId)
    requires var h := Run(START, actions); c in h.all && !h.all[c].open
    ensures var h := Run(START, actions);
            var k := h.all[c];
            && c !in h.clients && c !in h.register
            && k.since.Some? && k.since.value + |k.verdicts| <= |h.processed|
            && k.received + k.buffer <= Due(h, k)
  {
    Reached(actions);
    assert ClientInv(Run(START, actions), c);
  }

  /** A client leaves the map only by unregistering or as stale, and is stale only if its buffer was full. */
  lemma WhyRemoved(h: Hub, a: Action, c: ClientId)
    requires Inv(h) && c in h.all
    ensures c in h.clients && c !in Step(h, a).clients ==>
              (a.TakeUnregister? && h.unregister[0] == c) || (a == Drop(c) && h.phase.Dropping? && c in h.phase.stale)
    ensures (Step(h, a).phase.Sending? && c in Step(h, a).phase.stale && !(h.phase.Sending? && c in h.phase.stale)) ==>
              a == Send(c) && |h.all[c].buffer| == 256
    ensures Step(h, a).phase.Dropping? && c in Step(h, a).phase.stale ==>
              (h.phase.Dropping? || h.phase.Sending?) && c in h.phase.stale
  {
    assert ClientInv(h, c);
  }

  // ---------------------------------------------------------------- subscriptions

  /** Every check of the client from its `from`-th on found that it wants messages on event `e`. */
  predicate WantsSince(h: Hub, c: ClientId, e: EventId, from: nat)
    requires c in h.all && h.all[c].since.Some?
    requires h.all[c].since.value + |h.all[c].verdicts| <= |h.processed|
  {
    var k := h.all[c];
    forall i :: from <= i < |k.verdicts| && h.processed[k.since.value + i].event in {None, Some(e)} ==> k.verdicts[i]
  }

  predicate Subscribed(h: Hub, c: ClientId, e: EventId, since: nat, from: nat) {
    && c in h.all && h.all[c].since == Some(since) && since + |h.all[c].verdicts| <= |h.processed|
    && from <= |h.all[c].verdicts| && e in h.all[c].events
    && WantsSince(h, c, e, from)
  }

  lemma SubscribedCheck(h: Hub, c: ClientId, e: EventId, since: nat, from: nat)
    requires QueuesInv(h) && c in h.all && ClientInv(h, c) && Subscribed(h, c, e, since, from) && Enabled(h, Check(c))
    ensures Subscribed(Apply(h, Check(c)), c, e, since, from)
  {
    assert since + |h.all[c].verdicts| == |h.processed| - 1;
  }

  lemma SubscribedKept(h: Hub, next: Hub, c: ClientId, e: EventId, since: nat, from: nat)
    requires Subscribed(h, c, e, since, from) && h.processed <= next.processed && c in next.all
    requires next.all[c].since == h.all[c].since && next.all[c].verdicts == h.all[c].verdicts
    requires h.all[c].events <= next.all[c].events
    ensures Subscribed(next, c, e, since, from)
  {
  }

  lemma SubscribedStep(h: Hub, a: Action, c: ClientId, e: EventId, since: nat, from: nat)
    requires QueuesInv(h) && c in h.all && ClientInv(h, c) && Subscribed(h, c, e, since, from)
    ensures Subscribed(Step(h, a), c, e, since, from) && h.processed <= Step(h, a).processed
  {
    if Enabled(h, a) {
      if a == Check(c) {
        SubscribedCheck(h, c, e, since, from);
      } else {
        assert a.TakeRegister? ==> h.register[0] != c;
        SubscribedKept(h, Apply(h, a), c, e, since, from);
      }
    }
  }

  lemma {:induction false} SubscribedRun(h: Hub, actions: seq<Action>, c: ClientId, e: EventId, since: nat, from: nat)
    requires Inv(h) && Subscribed(h, c, e, since, from)
    ensures Subscribed(Run(h, actions), c, e, since, from) && h.processed <= Run(h, actions).processed
  {
    if actions != [] {
      var front := actions[..|actions| - 1];
      SubscribedRun(h, front, c, e, since, from);
      RunKeepsInv(h, front);
      assert ClientInv(Run(h, front), c);
      SubscribedStep(Run(h, front), actions[|actions| - 1], c, e, since, from);
    }
  }

  lemma {:induction false} MatchedAt(ms: seq<Message>, verdicts: seq<bool>, i: nat)
    requires |ms| == |verdicts| && i < |ms| && verdicts[i]
    ensures Matched(ms[..i], verdicts[..i]) + [ms[i]] <= Matched(ms, verdicts)
  {
    var n := |ms| - 1;
    if i < n {
      MatchedAt(ms[..n], verdicts[..n], i);
      assert ms[..n][..i] == ms[..i] && verdicts[..n][..i] == verdicts[..i];
    }
  }

  /** Message `j` was sent to the client, right after what matched before it, and nothing else before that. */
  predicate SentInTurn(h: Hub, c: ClientId, j: nat) {
    && c in h.all && j < |h.processed|
    && var k := h.all[c];
       && k.since.Some? && k.since.value <= j < k.since.value + |k.verdicts|
       && var turn := j - k.since.value;
          Matched(h.processed[k.since.value..j], k.verdicts[..turn]) + [h.processed[j]] <= k.received + k.buffer
  }

  lemma SentWhatItWants(g: Hub, c: ClientId, e: EventId, since: nat, from: nat, j: nat)
    requires Subscribed(g, c, e, since, from) && UpToDate(g, c)
    requires since + from <= j < |g.processed| && g.processed[j].event in {None, Some(e)}
    ensures SentInTurn(g, c, j)
  {
    var k := g.all[c];
    assert g.processed[since + (j - since)].event in {None, Some(e)};
    assert k.verdicts[j - since];
    MatchedAt(g.processed[since..], k.verdicts, j - since);
    assert g.processed[since..][..j - since] == g.processed[since..j];
  }

  /** A subscriber that stays in the map is sent every message on its event processed after it subscribed, in turn. */
  lemma SubscriberMissesNothing(h: Hub, actions: seq<Action>, c: ClientId, e: EventId, j: nat)
    requires Inv(h) && h.phase.Idle? && c in h.clients && c in h.all && e in h.all[c].events
    requires Run(h, actions).phase.Idle? && c in Run(h, actions).clients
    requires |h.processed| <= j < |Run(h, actions).processed|
    requires Run(h, actions).processed[j].event in {None, Some(e)}
    ensures SentInTurn(Run(h, actions), c, j)
  {
    assert ClientInv(h, c);
    IdleUpToDate(h, c);
    var since, from := h.all[c].since.value, |h.all[c].verdicts|;
    SubscribedRun(h, actions, c, e, since, from);
    RunKeepsInv(h, actions);
    var g := Run(h, actions);
    assert ClientInv(g, c);
    IdleUpToDate(g, c);
    SentWhatItWants(g, c, e, since, from, j);
  }

  // ---------------------------------------------------------------- nobody else's messages

  /** The message is for everyone, or on an event among these. */
  predicate Meant(m: Message, events: set<EventId>) {
    m.event.None? || m.event.value in events
  }

  /** All that was sent to a client, and all that is about to be, is meant for it. */
  predicate OnlyMeant(h: Hub, c: ClientId)
    requires c in h.all
  {
    && (forall m <- h.all[c].Log() :: Meant(m, h.all[c].events))
    && (!h.phase.Idle? && h.phase.Owes(c) ==> Meant(h.phase.m, h.all[c].events))
  }

  lemma OnlyMeantStep(h: Hub, a: Action, c: ClientId)
    requires QueuesInv(h) && c in h.all && OnlyMeant(h, c) && Enabled(h, a)
    ensures c in Apply(h, a).all && OnlyMeant(Apply(h, a), c)
  {
    var k, l := h.all[c], Apply(h, a).all[c];
    if a == Receive(c) {
      assert k.buffer == [k.buffer[0]] + k.buffer[1..];
      assert l.Log() == k.Log();
    } else if a == Send(c) {
      assert l.Log() == k.Log() || l.Log() == k.Log() + [h.phase.m];
    } else {
      assert l.Log() == k.Log();
    }
  }

  /**
   In every run a client is sent nothing but messages for everyone and messages on events it subscribed
   to, whatever the others subscribed to and whenever it is asked.
   */
  lemma {:induction false} NothingUnwanted(actions: seq<Action>, c: ClientId)
    requires c in Run(START, actions).all
    ensures var k := Run(START, actions).all[c];
            forall m <- k.received + k.buffer :: m.event.None? || m.event.value in k.events
  {
    RunOnlyMeant(actions, c);
    var k := Run(START, actions).all[c];
    assert k.received + k.buffer == k.Log();
    forall m | m in k.received + k.buffer ensures m.event.None? || m.event.value in k.events {
      assert Meant(m, k.events);
    }
  }

  lemma {:induction false} RunOnlyMeant(actions: seq<Action>, c: ClientId)
    requires c in Run(START, actions).all
    ensures OnlyMeant(Run(START, actions), c)
  {
    if actions != [] {
      var front, a := actions[..|actions| - 1], actions[|actions| - 1];
      var h := Run(START, front);
      Reached(front);
      if c in h.all {
        RunOnlyMeant(front, c);
        if Enabled(h, a) {
          OnlyMeantStep(h, a, c);
        }
      } else {
        assert a == Connect(c) && c !in h.phase.Mentioned() && !h.phase.Owes(c);
        assert Run(START, actions).all[c].Log() == [];
      }
    }
  }

  /** The events a client asked for, in the steps that were taken. */
  function Asked(actions: seq<Action>, c: ClientId): set<EventId> {
    if actions == [] then {}
    else
      var front, a := actions[..|actions| - 1], actions[|actions| - 1];
      Asked(front, c) + if a.Subscribe? && a.c == c && c in Run(START, front).all then {a.e} else {}
  }

  lemma SubscriptionsStep(h: Hub, a: Action, c: ClientId)
    ensures c in h.all ==>
              && c in Step(h, a).all
              && Step(h, a).all[c].events == h.all[c].events + if a.Subscribe? && a.c == c then {a.e} else {}
    ensures c !in h.all && c in Step(h, a).all ==> Step(h, a).all[c].events == {}
  {
  }

  lemma AskedStep(front: seq<Action>, a: Action, c: ClientId)
    ensures Asked(front + [a], c)
         == Asked(front, c) + if a.Subscribe? && a.c == c && c in Run(START, front).all then {a.e} else {}
    ensures Run(START, front + [a]) == Step(Run(START, front), a)
  {
    assert (front + [a])[..|front|] == front;
  }

  predicate AsAsked(h: Hub, asked: set<EventId>, c: ClientId) {
    if c in h.all then h.all[c].events == asked else asked == {}
  }

  /** A client's subscriptions are the events it asked for itself. */
  lemma {:induction false} SubscriptionsAsked(actions: seq<Action>, c: ClientId)
    ensures AsAsked(Run(START, actions), Asked(actions, c), c)
  {
    if actions != [] {
      var front, a := actions[..|actions| - 1], actions[|actions| - 1];
      SubscriptionsAsked(front, c);
      SubscriptionsStep(Run(START, front), a, c);
      AskedStep(front, a, c);
      assert actions == front + [a];
    }
  }

  // ---------------------------------------------------------------- leaving

  /** The client is out of the hub, or will be once the unregister queue has been worked off. */
  predicate OnItsWayOut(h: Hub, c: ClientId) {
    c in h.all && (c in h.unregister || c !in h.clients)
  }

  lemma StepsOut(h: Hub, a: Action, c: ClientId)
    requires OnItsWayOut(h, c) && c !in h.register
    ensures OnItsWayOut(Step(h, a), c) && c !in Step(h, a).register
  {
    if a.TakeUnregister? && Enabled(h, a) {
      assert h.unregister == [h.unregister[0]] + h.unregister[1..];
    }
  }

  lemma {:induction false} StaysOut(h: Hub, actions: seq<Action>, c: ClientId)
    requires OnItsWayOut(h, c) && c !in h.register
    ensures OnItsWayOut(Run(h, actions), c)
    ensures c !in Run(h, actions).register
  {
    if actions != [] {
      StaysOut(h, actions[..|actions| - 1], c);
      StepsOut(Run(h, actions[..|actions| - 1]), actions[|actions| - 1], c);
    }
  }

  lemma {:induction false} RunAppend(h: Hub, first: seq<Action>, rest: seq<Action>)
    ensures Run(h, first + rest) == Run(Run(h, first), rest)
  {
    if rest == [] {
      assert first + rest == first;
    } else {
      RunAppend(h, first, rest[..|rest| - 1]);
      assert (first + rest)[..|first + rest| - 1] == first + rest[..|rest| - 1];
    }
  }

  lemma RunFirst(h: Hub, a: Action, rest: seq<Action>)
    ensures Run(h, [a] + rest) == Run(Step(h, a), rest)
  {
    RunAppend(h, [a], rest);
    assert [a][..0] == [];
    assert Run(h, [a]) == Step(h, a);
  }

  /** Only steps of the hub loop itself. */
  predicate HubOnly(actions: seq<Action>) {
    forall a <- actions :: a.OfHub()
  }

  lemma {:induction false} WorkOffLeavers(h: Hub) returns (actions: seq<Action>)
    requires Inv(h) && h.phase.Idle?
    ensures HubOnly(actions)
    ensures var g := Run(h, actions); Inv(g) && g.phase.Idle? && g.unregister == [] && g.register == h.register
    decreases |h.unregister|
  {
    if h.unregister == [] {
      actions := [];
    } else {
      StepKeepsInv(h, TakeUnregister);
      var rest := WorkOffLeavers(Step(h, TakeUnregister));
      actions := [TakeUnregister] + rest;
      RunFirst(h, TakeUnregister, rest);
    }
  }

  lemma {:induction false} WorkOffNewcomers(h: Hub) returns (actions: seq<Action>)
    requires Inv(h) && h.phase.Idle? && h.unregister == []
    ensures HubOnly(actions)
    ensures var g := Run(h, actions);
            && Inv(g) && g.phase.Idle? && g.register == [] && g.unregister == []
            && h.clients <= g.clients && forall c :: c in h.register ==> c in g.clients
    decreases |h.register|
  {
    if h.register == [] {
      actions := [];
    } else {
      var g := Step(h, TakeRegister);
      assert h.register == [h.register[0]] + h.register[1..];
      StepKeepsInv(h, TakeRegister);
      var rest := WorkOffNewcomers(g);
      actions := [TakeRegister] + rest;
      RunFirst(h, TakeRegister, rest);
    }
  }

  /** The client left, nothing is queued, and the hub still keeps it, with its channel open. */
  predicate Forgotten(h: Hub, c: ClientId) {
    c in h.clients && c in h.all && h.all[c].open && h.register == [] && h.unregister == []
  }

  /** A client that leaves before the hub has taken its registration may be kept: the hub may take the leave first. */
  lemma {:induction false} LeaveForgotten(h: Hub, c: ClientId) returns (actions: seq<Action>)
    requires Inv(h) && h.phase.Idle? && Enabled(h, Leave(c)) && c in h.register
    ensures HubOnly(actions) && Forgotten(Run(Step(h, Leave(c)), actions), c)
  {
    var g := Step(h, Leave(c));
    StepKeepsInv(h, Leave(c));
    var first := WorkOffLeavers(g);
    var second := WorkOffNewcomers(Run(g, first));
    actions := first + second;
    RunAppend(g, first, second);
    var k := Run(g, actions);
    assert c in k.clients && c in k.all && ClientInv(k, c);
  }

  /** Whatever happens after the leave, the client gets out. */
  ghost predicate SureToLeave(h: Hub, c: ClientId) {
    forall actions :: OnItsWayOut(Run(Step(h, Leave(c)), actions), c)
  }

  /** A leave is sure to be honoured exactly if the hub has taken the client's registration. */
  lemma {:induction false} LeavesExactly(h: Hub, c: ClientId)
    requires Inv(h) && h.phase.Idle? && Enabled(h, Leave(c))
    ensures SureToLeave(h, c) <==> c !in h.register
  {
    if c in h.register {
      var actions := LeaveForgotten(h, c);
      assert !OnItsWayOut(Run(Step(h, Leave(c)), actions), c);
    } else {
      forall actions ensures OnItsWayOut(Run(Step(h, Leave(c)), actions), c) {
        StaysOut(Step(h, Leave(c)), actions, c);
      }
    }
  }

  // ---------------------------------------------------------------- reading

  function Reads(c: ClientId, n: nat): seq<Action> {
    if n == 0 then [] else Reads(c, n - 1) + [Receive(c)]
  }

  /** The client after it has taken `n` messages from its channel. */
  function HasRead(k: Client, n: nat): Client
    requires n <= |k.buffer|
  {
    k.(received := k.received + k.buffer[..n], buffer := k.buffer[n..])
  }

  lemma ReadOne(k: Client, n: nat)
    requires n < |k.buffer|
    ensures HasRead(k, n).buffer != [] && HasRead(HasRead(k, n), 1) == HasRead(k, n + 1)
    ensures HasRead(k, n).buffer[..1] == [HasRead(k, n).buffer[0]]
  {
    assert k.buffer[..n + 1] == k.buffer[..n] + k.buffer[n..][..1];
    assert k.buffer[n..][1..] == k.buffer[n + 1..];
  }

  /** `g` is `h` but for what the client has read. */
  predicate ReadFrom(h: Hub, g: Hub, c: ClientId, n: nat) {
    && c in h.all && n <= |h.all[c].buffer| && c in g.all && g.all[c] == HasRead(h.all[c], n)
    && g == h.(all := g.all) && g.all - {c} == h.all - {c}
  }

  lemma ReadStep(h: Hub, g: Hub, c: ClientId, n: nat)
    requires ReadFrom(h, g, c, n) && n < |h.all[c].buffer|
    ensures ReadFrom(h, Step(g, Receive(c)), c, n + 1)
  {
    ReadOne(h.all[c], n);
    assert Step(g, Receive(c)).all == g.all[c := HasRead(g.all[c], 1)];
    assert Step(g, Receive(c)).all - {c} == g.all - {c};
  }

  /** A client that keeps reading gets what it was sent, in that order, and nothing else changes. */
  lemma {:induction false} ReaderCatchesUp(h: Hub, c: ClientId, n: nat)
    requires c in h.all && n <= |h.all[c].buffer|
    ensures ReadFrom(h, Run(h, Reads(c, n)), c, n)
  {
    if n == 0 {
      assert HasRead(h.all[c], 0) == h.all[c];
    } else {
      ReaderCatchesUp(h, c, n - 1);
      ReadStep(h, Run(h, Reads(c, n - 1)), c, n - 1);
    }
  }

  // ---------------------------------------------------------------- first published, first processed

  /** The published messages that found room in the queue, in order. */
  function Queued(actions: seq<Action>): seq<Message> {
    if actions == [] then []
    else
      var front, a := actions[..|actions| - 1], actions[|actions| - 1];
      Queued(front) + if a.Publish? && |Run(START, front).broadcast| < 512 then [a.m] else []
  }

  lemma OrderStep(h: Hub, a: Action)
    ensures Step(h, a).processed + Step(h, a).broadcast
         == h.processed + h.broadcast + if a.Publish? && |h.broadcast| < 512 then [a.m] else []
  {
    if a.TakeBroadcast? && Enabled(h, a) {
      assert h.broadcast == [h.broadcast[0]] + h.broadcast[1..];
    }
  }

  /** Messages are processed in the order in which they were published, and none that found room is lost. */
  lemma {:induction false} ProcessedInOrder(actions: seq<Action>)
    ensures Run(START, actions).processed + Run(START, actions).broadcast == Queued(actions)
  {
    if actions != [] {
      var front, a := actions[..|actions| - 1], actions[|actions| - 1];
      ProcessedInOrder(front);
      OrderStep(Run(START, front), a);
    }
  }

  // ---------------------------------------------------------------- the loop never hangs

  /** Steps the hub loop has left for the message in hand. */
  function Left(p: Phase): nat {
    match p
    case Idle => 0
    case Collecting(_, todo, recipients) => 3 + 3 * |todo| + 2 * |recipients|
    case Sending(_, todo, stale) => 2 + 2 * |todo| + |stale|
    case Dropping(_, stale) => 1 + |stale|
  }

  lemma CheckShrinks(h: Hub, c: ClientId)
    requires QueuesInv(h) && h.phase.Collecting? && c in h.phase.todo && c in h.all
    ensures Left(Checked(h, c).phase) < Left(h.phase)
  {
    Shrinks(h.phase.todo, h.phase.recipients, c);
  }

  lemma SendShrinks(h: Hub, c: ClientId)
    requires h.phase.Sending? && c in h.phase.todo && c in h.all && h.all[c].open
    ensures Left(SentTo(h, c).phase) < Left(h.phase)
  {
    Shrinks(h.phase.todo, h.phase.stale, c);
  }

  lemma DropShrinks(h: Hub, c: ClientId)
    requires h.phase.Dropping? && c in h.phase.stale
    ensures Left(Apply(h, Drop(c)).phase) < Left(h.phase)
  {
    Shrinks(h.phase.stale, {}, c);
  }

  /** Until the message in hand is done the hub loop has a step to take. */
  lemma {:induction false} HubCanStep(h: Hub) returns (a: Action)
    requires Inv(h) && !h.phase.Idle?
    ensures Enabled(h, a) && a.OfHub()
  {
    var waiting := if h.phase.Dropping? then h.phase.stale else h.phase.todo;
    if waiting == {} {
      a := if h.phase.Collecting? then StartSending else if h.phase.Sending? then StartDropping else Finish;
    } else {
      var c :| c in waiting;
      assert c in h.phase.Mentioned() && c in h.clients && c in h.all;
      if h.phase.Collecting? {
        a := Check(c);
      } else if h.phase.Sending? {
        a := Send(c);
      } else {
        a := Drop(c);
      }
    }
  }

  lemma PhaseShrinks(h: Hub, a: Action)
    requires !h.phase.Idle? && Enabled(h, a) && (a.StartSending? || a.StartDropping? || a.Finish?)
    ensures Left(Apply(h, a).phase) < Left(h.phase)
  {
  }

  lemma OthersKeepPhase(h: Hub, a: Action)
    requires !a.OfHub()
    ensures Step(h, a).phase == h.phase
  {
  }

  /** Every step the loop takes shortens what is left; nobody else's does anything to it. */
  lemma StepShrinks(h: Hub, a: Action)
    requires Inv(h) && !h.phase.Idle? && Enabled(h, a)
    ensures if a.OfHub() then Left(Apply(h, a).phase) < Left(h.phase) else Apply(h, a).phase == h.phase
  {
    if !a.OfHub() {
      OthersKeepPhase(h, a);
    } else if a.Check? {
      CheckShrinks(h, a.c);
    } else if a.Send? {
      assert ClientInv(h, a.c);
      SendShrinks(h, a.c);
    } else if a.Drop? {
      DropShrinks(h, a.c);
    } else {
      PhaseShrinks(h, a);
    }
  }

  /** How many steps the hub loop takes. */
  function HubSteps(h: Hub, actions: seq<Action>): nat {
    if actions == [] then 0
    else
      var front, a := actions[..|actions| - 1], actions[|actions| - 1];
      HubSteps(h, front) + if a.OfHub() && Enabled(Run(h, front), a) then 1 else 0
  }

  /** The message in hand is never done along the run. */
  predicate Busy(h: Hub, actions: seq<Action>) {
    !Run(h, actions).phase.Idle? && (actions == [] || Busy(h, actions[..|actions| - 1]))
  }

  lemma {:induction false} StepsLeft(h: Hub, actions: seq<Action>)
    requires Inv(h) && Busy(h, actions)
    ensures HubSteps(h, actions) + Left(Run(h, actions).phase) <= Left(h.phase)
  {
    if actions != [] {
      var front, a := actions[..|actions| - 1], actions[|actions| - 1];
      StepsLeft(h, front);
      RunKeepsInv(h, front);
      if Enabled(Run(h, front), a) {
        StepShrinks(Run(h, front), a);
      }
    }
  }

  /**
   Whatever clients and publishers do meanwhile, as long as the message in hand is not done the hub loop
   has a step to take, and it takes fewer than `Left(h.phase)` of them.
   */
  lemma AlwaysFinishes(h: Hub, actions: seq<Action>) returns (a: Action)
    requires Inv(h) && Busy(h, actions)
    ensures HubSteps(h, actions) < Left(h.phase)
    ensures a.OfHub() && Enabled(Run(h, actions), a)
  {
    StepsLeft(h, actions);
    RunKeepsInv(h, actions);
    a := HubCanStep(Run(h, actions));
  }

  lemma Shrinks(s: set<ClientId>, t: set<ClientId>, c: ClientId)
    requires c in s
    ensures |s - {c}| == |s| - 1 && |t + {c}| <= |t| + 1
  {
    WithoutOne(s, c);
  }
}
