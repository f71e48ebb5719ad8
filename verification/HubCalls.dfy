/** The hub's side of calls, as it changes `lv.ws`, `lv.pending` and the futures in place
    (hub/icsd_hub/rpc.py and the socket loop of hub/icsd_hub/agents.py).

    The ghost fields record the run of hub, agent and network; `Valid` says that the fields are what that
    run gives, so that the results about every run in `Rpc` hold of every object in use.
 */
module HubCalls {
  import opened Common
  import opened Rpc

  /** How `call` begins: the two refusals, or the request on its way. */
  datatype Begun = NotConnected | MonitorOnly | OnItsWay

  class Live {
    var socket: Option<nat>
    var calls: map<nat, Call>
    var pending: set<nat>

    ghost var world: State
    ghost var acts: seq<Action>

    ghost predicate Valid()
      reads this
    {
      world == Run(acts) && socket == world.socket && calls == world.calls && pending == world.pending
    }

    constructor ()
      ensures Valid() && socket == None && calls == map[] && pending == {}
    {
      socket, calls, pending := None, map[], {};
      world, acts := START, [];
    }

    /** The run grows by one action, which the fields already reflect. */
    ghost method Did(a: Action)
      requires world == Run(acts)
      requires var s := Act(world, a); socket == s.socket && calls == s.calls && pending == s.pending
      modifies this`world, this`acts
      ensures Valid() && acts == old(acts) + [a] && world == Act(old(world), a)
    {
      assert (acts + [a])[..|acts|] == acts;
      world := Act(world, a);
      acts := acts + [a];
    }

    /** Anything the agent or the network does. */
    ghost method Elsewhere(a: Action)
      requires Valid()
      requires a.Transmit? || a.Accept? || a.Answered? || a.LoseRequest? || a.LoseAnswer?
      modifies this`world, this`acts
      ensures Valid() && acts == old(acts) + [a]
    {
      Did(a);
    }

    /** `call` up to its first await; `r` is the new random id, `manage` whether the agent may be managed. */
    method Begin(r: nat, req: Request, manage: bool) returns (b: Begun)
      requires Valid() && r !in calls
      modifies this
      ensures Valid() && acts == old(acts) + [Rpc.Begin(r, req, manage)]
      ensures b == if socket.None? then NotConnected else if !manage then MonitorOnly else OnItsWay
      ensures if b.OnItsWay? then r in pending && At(world, r, Sending)
              else At(world, r, Ended(Error)) && pending == old(pending)
    {
      b := if socket.None? then NotConnected else if !manage then MonitorOnly else OnItsWay;
      if b.OnItsWay? {
        calls := calls[r := Call(req, Open, Sending)];
        pending := pending + {r};
      } else {
        calls := calls[r := Call(req, Open, Ended(Error))];
      }
      Did(Rpc.Begin(r, req, manage));
    }

    method SendReturned(r: nat, ok: bool)
      requires Valid() && At(world, r, Sending) && (ok ==> r in world.sent)
      modifies this
      ensures Valid() && acts == old(acts) + [if ok then SendOk(r) else SendFails(r)]
      ensures At(world, r, if ok then Waiting else Ended(Error)) && (!ok ==> r !in pending)
    {
      if ok {
        calls := calls[r := calls[r].(place := Waiting)];
        Did(SendOk(r));
      } else {
        calls := calls[r := calls[r].(place := Ended(Error))];
        pending := pending - {r};
        Did(SendFails(r));
      }
    }

    /** The timer goes off: an open future is cancelled, and the call will end in an error even if its result has
        just come in. */
    method TimeOut(r: nat)
      requires Valid() && At(world, r, Waiting)
      modifies this
      ensures Valid() && acts == old(acts) + [Expire(r)]
      ensures At(world, r, Expiring) && pending == old(pending)
      ensures calls[r].fut == if old(calls)[r].fut.Open? then Cancelled else old(calls)[r].fut
    {
      if calls[r].fut.Open? {
        calls := calls[r := calls[r].(fut := Cancelled)];
      }
      calls := calls[r := calls[r].(place := Expiring)];
      Did(Expire(r));
    }

    /** The task of a call runs again because its future is done or its time is up: the call ends, and what it
        returns came in a message of its own id. */
    method Resume(r: nat) returns (o: Outcome)
      requires Valid() && r in calls
      requires calls[r].place.Expiring? || (calls[r].place.Waiting? && (calls[r].fut.Result? || calls[r].fut.Broken?))
      modifies this
      ensures Valid() && acts == old(acts) + [Rpc.Resume(r)]
      ensures At(world, r, Ended(o)) && r !in pending
      ensures o.Returned? <==> old(calls)[r].place.Waiting? && calls[r].fut.Result? && calls[r].fut.msg.answer.Done?
      ensures o.Returned? ==> calls[r].fut == Result(Message(r, Done(o.value)))
      ensures o.Returned? && world.honest ==> r in world.handled && world.handled[r] == (calls[r].req, Done(o.value))
    {
      o := Error;
      if calls[r].place.Waiting? && calls[r].fut.Result? && calls[r].fut.msg.answer.Done? {
        o := Returned(calls[r].fut.msg.answer.value);
      }
      calls := calls[r := calls[r].(place := Ended(o))];
      pending := pending - {r};
      Did(Rpc.Resume(r));
      if o.Returned? {
        AnswerIsItsOwn(acts, r);
      }
    }

    /** A new socket arrives: the old one is set aside before the hub waits for it to close. */
    method SetAside()
      requires Valid()
      modifies this
      ensures Valid() && socket == None && calls == old(calls) && pending == old(pending)
    {
      if socket.Some? {
        socket := None;
        Did(Replace);
      }
    }

    /** Some time later, with anything in between, the new socket takes over. */
    method TakeOver(c: nat)
      requires Valid()
      modifies this
      ensures Valid() && acts == old(acts) + [Attach(c)]
      ensures socket == Some(c) && calls == old(calls) && pending == old(pending)
    {
      socket := Some(c);
      Did(Attach(c));
    }

    /** The `res` branch of the socket loop, for any message. */
    method Receive(m: Message)
      requires Valid()
      modifies this
      ensures Valid() && acts == old(acts) + [Rpc.Receive(m)]
      ensures pending == old(pending) - {m.id}
      ensures calls == if m.id in old(pending) && m.id in old(calls) && old(calls)[m.id].fut.Open?
                       then old(calls)[m.id := old(calls)[m.id].(fut := Result(m))] else old(calls)
    {
      RunKeeps(acts);
      assert CallOk(world, m.id);
      if m.id in pending {
        pending := pending - {m.id};
        if calls[m.id].fut.Open? {
          calls := calls[m.id := calls[m.id].(fut := Result(m))];
        }
      } else {
        assert world.pending - {m.id} == world.pending;
      }
      Did(Rpc.Receive(m));
    }

    /** Breaks the futures of `pending` in some order. */
    method BreakPending() returns (ghost order: seq<nat>)
      requires Inv(world) && calls == world.calls && pending == world.pending
      modifies this`calls
      ensures Lists(order, pending) && calls == BreakAll(world, order).calls
    {
      order := [];
      var todo := pending;
      while exists r :: r in todo
        invariant todo <= pending && Lists(order, pending - todo)
        invariant calls == BreakAll(world, order).calls
        decreases todo
      {
        var r :| r in todo;
        assert forall q :: q in order ==> q in pending - todo;
        NotYetBroken(world, order, r);
        if calls[r].fut.Open? {
          calls := calls[r := calls[r].(fut := Broken)];
        }
        ListsOneMore(order, pending - todo, r);
        assert pending - (todo - {r}) == pending - todo + {r};
        assert (order + [r])[..|order|] == order;
        order := order + [r];
        todo := todo - {r};
      }
      assert pending - todo == pending;
    }

    /** The clean-up when the loop of socket `c` ends: only the current socket breaks what is pending. */
    method Disconnect(c: nat)
      requires Valid()
      modifies this
      ensures Valid()
      ensures socket != Some(c)
      ensures old(socket) != Some(c) ==> socket == old(socket) && calls == old(calls) && pending == old(pending)
      ensures old(socket) == Some(c) ==> pending == {} && calls.Keys == old(calls).Keys
      ensures old(socket) == Some(c) ==> forall r :: r in calls ==>
                calls[r] == if r in old(pending) && old(calls)[r].fut.Open? then old(calls)[r].(fut := Broken)
                            else old(calls)[r]
    {
      RunKeeps(acts);
      if socket == Some(c) {
        socket := None;
        ghost var order := BreakPending();
        forall r ensures r in calls <==> r in old(calls) {
          BrokenCall(world, order, r);
        }
        forall r | r in calls
          ensures calls[r] == if r in old(pending) && old(calls)[r].fut.Open? then old(calls)[r].(fut := Broken)
                              else old(calls)[r]
        {
          BrokenCall(world, order, r);
        }
        pending := {};
        Did(Rpc.Disconnect(c, order));
      }
    }
  }

  lemma ListsOneMore(order: seq<nat>, ids: set<nat>, r: nat)
    requires Lists(order, ids) && r !in ids
    ensures Lists(order + [r], ids + {r})
  {
    forall q ensures q in ids + {r} <==> q in order + [r] {
      assert q in ids <==> q in order;
    }
  }

  /** What breaking the listed futures does to one call. */
  lemma {:induction false} BrokenCall(s: State, order: seq<nat>, r: nat)
    requires Inv(s) && forall q :: q in order ==> q in s.pending
    ensures r in BreakAll(s, order).calls <==> r in s.calls
    ensures r in s.calls ==>
              BreakAll(s, order).calls[r] ==
              if r in order && s.calls[r].fut.Open? then s.calls[r].(fut := Broken) else s.calls[r]
  {
    if order == [] {
    } else {
      var init, q := order[..|order| - 1], order[|order| - 1];
      assert order == init + [q];
      BrokenCall(s, init, r);
      BrokenCall(s, init, q);
      assert CallOk(s, q);
    }
  }

  lemma NotYetBroken(s: State, order: seq<nat>, r: nat)
    requires Inv(s) && r in s.pending && r !in order && forall q :: q in order ==> q in s.pending
    ensures r in s.calls && r in BreakAll(s, order).calls && BreakAll(s, order).calls[r] == s.calls[r]
  {
    BrokenCall(s, order, r);
    assert CallOk(s, r);
  }
}
