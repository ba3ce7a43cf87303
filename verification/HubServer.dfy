/** The hub's own methods, with their loops: each runs steps of the hub machine and nothing else. */
module HubServer {
  import opened Prelude
  import opened HubLoop

  /** The state `h` is reachable and follows from `start` by `actions`. */
  predicate Follows(h: Hub, start: Hub, actions: seq<Action>) {
    Inv(h) && h == Run(start, actions)
  }

  lemma OneMore(h: Hub, start: Hub, actions: seq<Action>, a: Action)
    requires Follows(h, start, actions)
    ensures Follows(Step(h, a), start, actions + [a])
  {
    StepKeepsInv(h, a);
    assert (actions + [a])[..|actions|] == actions;
  }

  lemma InPhase(h: Hub, c: ClientId)
    requires Inv(h) && c in h.phase.Mentioned()
    ensures c in h.all && c in h.clients && h.all[c].open
  {
    assert c in h.all && ClientInv(h, c);
  }

  class Server {
    var all: map<ClientId, Client>
    var clients: set<ClientId>
    var register: seq<ClientId>
    var unregister: seq<ClientId>
    var broadcast: seq<Message>
    ghost var phase: Phase
    var processed: seq<Message>

    constructor ()
      ensures State() == START
    {
      all, clients, register, unregister, broadcast := map[], {}, [], [], [];
      phase, processed := Idle, [];
    }

    ghost function State(): Hub
      reads this
    {
      Hub(all, clients, register, unregister, broadcast, phase, processed, false)
    }

    method Subscribe(c: ClientId, e: EventId)
      requires c in all
      modifies this
      ensures State() == Step(old(State()), HubLoop.Subscribe(c, e))
    {
      all := all[c := all[c].(events := all[c].events + {e})];
    }

    /** Never blocks the caller: a full queue drops the message. */
    method BroadcastLocal(m: Message)
      modifies this
      ensures State() == Step(old(State()), Publish(m))
    {
      if |broadcast| < BROADCAST_QUEUE {
        broadcast := broadcast + [m];
      }
    }

    method RegisterClient()
      requires Inv(State()) && phase.Idle? && register != []
      modifies this
      ensures State() == Step(old(State()), TakeRegister)
    {
      var c := register[0];
      assert ClientInv(State(), c);
      register := register[1..];
      clients := clients + {c};
      all := all[c := all[c].(since := Some(|processed|))];
    }

    method RemoveClient()
      requires Inv(State()) && phase.Idle? && unregister != []
      modifies this
      ensures State() == Step(old(State()), TakeUnregister)
    {
      var c := unregister[0];
      assert c in clients ==> ClientInv(State(), c);
      unregister := unregister[1..];
      if c in clients {
        clients := clients - {c};
        all := all[c := all[c].(open := false)];
      }
    }

    /** One message: collect the matching clients, send without blocking, drop those with no room. */
    method DeliverToClients() returns (ghost actions: seq<Action>)
      requires Inv(State()) && phase.Idle? && broadcast != []
      modifies this
      ensures Follows(State(), old(State()), actions) && phase.Idle?
      ensures processed == old(processed) + [old(broadcast)[0]]
    {
      ghost var start := State();
      var m := TakeMessage();
      OneMore(start, start, [], TakeBroadcast);
      var recipients;
      recipients, actions := Collect(m, start, [] + [TakeBroadcast]);
      var stale;
      stale, actions := SendAll(m, recipients, start, actions);
      if stale != {} {
        actions := DropAll(m, stale, start, actions);
      }
    }

    method TakeMessage() returns (m: Message)
      requires phase.Idle? && broadcast != []
      modifies this
      ensures m == old(broadcast)[0] && State() == Step(old(State()), TakeBroadcast)
    {
      m := broadcast[0];
      broadcast, processed, phase := broadcast[1..], processed + [m], Collecting(m, clients, {});
    }

    method Collect(m: Message, ghost start: Hub, ghost before: seq<Action>)
      returns (recipients: set<ClientId>, ghost actions: seq<Action>)
      requires Follows(State(), start, before) && phase == Collecting(m, clients, {})
      modifies this
      ensures Follows(State(), start, actions) && phase == Sending(m, recipients, {})
      ensures processed == old(processed)
    {
      var todo := clients;
      recipients, actions := {}, before;
      while todo != {}
        invariant Follows(State(), start, actions)
        invariant phase == Collecting(m, todo, recipients) && processed == old(processed)
      {
        var c :| c in todo;
        var wants;
        wants, actions := CheckOne(m, c, start, actions);
        todo := todo - {c};
        if wants {
          recipients := recipients + {c};
        }
      }
      actions := EndPhase(StartSending, start, actions);
    }

    method CheckOne(m: Message, c: ClientId, ghost start: Hub, ghost before: seq<Action>)
      returns (wants: bool, ghost actions: seq<Action>)
      requires Follows(State(), start, before)
      requires phase.Collecting? && phase.m == m && c in phase.todo
      modifies this
      ensures Follows(State(), start, actions) && processed == old(processed)
      ensures phase == Collecting(m, old(phase).todo - {c}, old(phase).recipients + if wants then {c} else {})
    {
      InPhase(State(), c);
      OneMore(State(), start, before, Check(c));
      actions := before + [Check(c)];
      wants := Wanted(m, c);
    }

    method Wanted(m: Message, c: ClientId) returns (wants: bool)
      requires c in all && phase.Collecting? && phase.m == m && c in phase.todo
      modifies this
      ensures State() == Step(old(State()), Check(c)) && wants == old(all)[c].Wants(m)
    {
      wants := all[c].Wants(m);
      phase := Checked(State(), c).phase;
      all := all[c := all[c].(verdicts := all[c].verdicts + [wants])];
    }

    method SendAll(m: Message, recipients: set<ClientId>, ghost start: Hub, ghost before: seq<Action>)
      returns (stale: set<ClientId>, ghost actions: seq<Action>)
      requires Follows(State(), start, before) && phase == Sending(m, recipients, {})
      modifies this
      ensures Follows(State(), start, actions) && processed == old(processed)
      ensures phase == if stale == {} then Idle else Dropping(m, stale)
    {
      var todo := recipients;
      stale, actions := {}, before;
      while todo != {}
        invariant Follows(State(), start, actions)
        invariant phase == Sending(m, todo, stale) && processed == old(processed)
      {
        var c :| c in todo;
        var sent;
        sent, actions := SendOne(m, c, start, actions);
        todo := todo - {c};
        if !sent {
          stale := stale + {c};
        }
      }
      actions := EndPhase(StartDropping, start, actions);
    }

    method SendOne(m: Message, c: ClientId, ghost start: Hub, ghost before: seq<Action>)
      returns (sent: bool, ghost actions: seq<Action>)
      requires Follows(State(), start, before)
      requires phase.Sending? && phase.m == m && c in phase.todo
      modifies this
      ensures Follows(State(), start, actions) && processed == old(processed)
      ensures phase == Sending(m, old(phase).todo - {c}, old(phase).stale + if sent then {} else {c})
    {
      InPhase(State(), c);
      OneMore(State(), start, before, Send(c));
      actions := before + [Send(c)];
      sent := TrySend(m, c);
    }

    /** The select with a default branch. */
    method TrySend(m: Message, c: ClientId) returns (sent: bool)
      requires c in all && all[c].open && phase.Sending? && phase.m == m && c in phase.todo
      modifies this
      ensures State() == Step(old(State()), Send(c)) && sent == (|old(all)[c].buffer| < SEND_BUFFER)
    {
      sent := |all[c].buffer| < SEND_BUFFER;
      phase := SentTo(State(), c).phase;
      if sent {
        all := all[c := all[c].(buffer := all[c].buffer + [m])];
      }
    }

    method DropAll(m: Message, stale: set<ClientId>, ghost start: Hub, ghost before: seq<Action>)
      returns (ghost actions: seq<Action>)
      requires Follows(State(), start, before) && phase == Dropping(m, stale)
      modifies this
      ensures Follows(State(), start, actions) && phase.Idle?
      ensures processed == old(processed)
    {
      var todo := stale;
      actions := before;
      while todo != {}
        invariant Follows(State(), start, actions)
        invariant phase == Dropping(m, todo) && processed == old(processed)
      {
        var c :| c in todo;
        actions := DropOne(m, c, start, actions);
        todo := todo - {c};
      }
      actions := EndPhase(Finish, start, actions);
    }

    method DropOne(m: Message, c: ClientId, ghost start: Hub, ghost before: seq<Action>)
      returns (ghost actions: seq<Action>)
      requires Follows(State(), start, before)
      requires phase.Dropping? && phase.m == m && c in phase.stale
      modifies this
      ensures Follows(State(), start, actions) && processed == old(processed)
      ensures phase == Dropping(m, old(phase).stale - {c})
    {
      InPhase(State(), c);
      OneMore(State(), start, before, Drop(c));
      actions := before + [Drop(c)];
      Close(m, c);
    }

    method Close(m: Message, c: ClientId)
      requires c in clients ==> c in all && all[c].open
      requires phase.Dropping? && phase.m == m && c in phase.stale
      modifies this
      ensures State() == Step(old(State()), Drop(c))
    {
      phase := Dropping(m, phase.stale - {c});
      if c in clients {
        clients := clients - {c};
        all := all[c := all[c].(open := false)];
      }
    }

    /** Only the phase moves between the loops. */
    ghost method EndPhase(a: Action, start: Hub, before: seq<Action>) returns (actions: seq<Action>)
      requires Follows(State(), start, before) && Enabled(State(), a)
      requires a.StartSending? || a.StartDropping? || a.Finish?
      modifies this`phase
      ensures Follows(State(), start, actions) && phase == Step(old(State()), a).phase
    {
      OneMore(State(), start, before, a);
      actions := before + [a];
      phase := Step(State(), a).phase;
    }
  }
}
