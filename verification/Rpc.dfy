/** Requests and answers over an agent's socket, matched by id
    (hub/icsd_hub/rpc.py, hub/icsd_hub/agents.py, agent/internal/link/link.go).

    The steps are the code between two awaits on the hub and the channel operations of the agent.
    Requests and answers can be lost or arbitrarily late, sockets can be replaced or drop, calls time out.
    A time-out only marks the call and cancels its future; the call ends when its task runs again, and a
    result that came in just before is then lost.
 */
module Rpc {
  import opened Common

  const SLOTS := 8

  datatype Request = Request(op: string, args: string)

  datatype Answer = Done(value: string) | Refused(error: string) | Busy

  datatype Message = Message(id: nat, answer: Answer)

  datatype Future = Open | Result(msg: Message) | Broken | Cancelled

  datatype Outcome = Returned(value: string) | Error

  datatype Place = Sending | Waiting | Expiring | Ended(outcome: Outcome)

  datatype Call = Call(req: Request, fut: Future, place: Place)

  /** What must happen once: a future is completed, a call ends. */
  datatype Event = Completed(id: nat) | Finished(id: nat)

  /** `sent` records which requests went out and `handled` which the agent answered with what; `honest` is
      whether every message for a waiting call so far was one the agent sent. */
  datatype State = State(socket: Option<nat>, calls: map<nat, Call>, pending: set<nat>, sent: set<nat>,
                         toAgent: map<nat, Request>, running: map<nat, Request>, toHub: set<Message>,
                         handled: map<nat, (Request, Answer)>, log: seq<Event>, honest: bool)

  const START := State(None, map[], {}, {}, map[], map[], {}, map[], [], true)

  datatype Action =
    | Begin(r: nat, req: Request, manage: bool) // `call` up to its first await; `r` is a fresh random id
    | Transmit(r: nat)                   // the request leaves; its sender has not resumed yet
    | SendOk(r: nat)                     // the sender resumes and waits for the future
    | SendFails(r: nat)                  // the sender sees an error, whether or not the request left
    | Expire(r: nat)                     // the timer of `wait_for` goes off
    | Resume(r: nat)                     // the waiting task runs again
    | Attach(c: nat)                     // a socket connects
    | Replace                            // the old socket is set aside for a newer one
    | Disconnect(c: nat, order: seq<nat>) // the clean-up of a socket loop
    | Receive(m: Message)                // the `res` branch
    | Accept(r: nat)                     // the agent reads a request
    | Answered(r: nat, a: Answer)        // a handler ends and replies
    | LoseRequest(r: nat)
    | LoseAnswer(m: Message)

  function End(s: State, r: nat, o: Outcome): State
    requires r in s.calls
  {
    s.(calls := s.calls[r := s.calls[r].(place := Ended(o))], pending := s.pending - {r}, log := s.log + [Finished(r)])
  }

  function Complete(s: State, r: nat, f: Future): State
    requires r in s.calls
  {
    s.(calls := s.calls[r := s.calls[r].(fut := f)], log := s.log + [Completed(r)])
  }

  predicate At(s: State, r: nat, p: Place) {
    r in s.calls && s.calls[r].place == p
  }

  function DoBegin(s: State, r: nat, req: Request, manage: bool): State {
    if r in s.calls then s
    else if s.socket.None? || !manage then
      s.(calls := s.calls[r := Call(req, Open, Ended(Error))], log := s.log + [Finished(r)])
    else
      s.(calls := s.calls[r := Call(req, Open, Sending)], pending := s.pending + {r})
  }

  function DoExpire(s: State, r: nat): State {
    if !At(s, r, Waiting) then s
    else if s.calls[r].fut.Open? then
      s.(calls := s.calls[r := s.calls[r].(fut := Cancelled, place := Expiring)], log := s.log + [Completed(r)])
    else s.(calls := s.calls[r := s.calls[r].(place := Expiring)])
  }

  function DoResume(s: State, r: nat): State {
    if At(s, r, Expiring) then End(s, r, Error)
    else if At(s, r, Waiting) then
      match s.calls[r].fut
      case Result(m) => End(s, r, if m.answer.Done? then Returned(m.answer.value) else Error)
      case Broken => End(s, r, Error)
      case _ => s
    else s
  }

  function DoReceive(s: State, m: Message): State {
    var s1 := s.(toHub := s.toHub - {m}, pending := s.pending - {m.id},
                 honest := s.honest && (m in s.toHub || m.id !in s.pending));
    if m.id in s.pending && m.id in s.calls && s.calls[m.id].fut.Open? then Complete(s1, m.id, Result(m)) else s1
  }

  function Break(s: State, r: nat): State {
    if r in s.calls && s.calls[r].fut.Open? then Complete(s, r, Broken) else s
  }

  /** Breaks the futures that are still open, one at a time. */
  function BreakAll(s: State, order: seq<nat>): State
    decreases |order|
  {
    if order == [] then s
    else
      Break(BreakAll(s, order[..|order| - 1]), order[|order| - 1])
  }

  /** `order` lists the pending ids as the dictionary does. */
  ghost predicate Lists(order: seq<nat>, ids: set<nat>) {
    (forall i, j :: 0 <= i < j < |order| ==> order[i] != order[j]) && ids == set r | r in order
  }

  ghost function DoDisconnect(s: State, c: nat, order: seq<nat>): State {
    if s.socket == Some(c) && Lists(order, s.pending) then BreakAll(s, order).(socket := None, pending := {}) else s
  }

  function DoAccept(s: State, r: nat): State {
    if r !in s.toAgent then s
    else
      var req := s.toAgent[r];
      var s1 := s.(toAgent := s.toAgent - {r});
      if |s.running| < SLOTS then s1.(running := s.running[r := req])
      else s1.(toHub := s.toHub + {Message(r, Busy)}, handled := s.handled[r := (req, Busy)])
  }

  function DoAnswered(s: State, r: nat, a: Answer): State {
    if r !in s.running then s
    else s.(running := s.running - {r}, toHub := s.toHub + {Message(r, a)},
            handled := s.handled[r := (s.running[r], a)])
  }

  ghost function Act(s: State, a: Action): State {
    match a
    case Begin(r, req, manage) => DoBegin(s, r, req, manage)
    case Transmit(r) =>
      if At(s, r, Sending) && r !in s.sent
      then s.(sent := s.sent + {r}, toAgent := s.toAgent[r := s.calls[r].req]) else s
    case SendOk(r) =>
      if At(s, r, Sending) && r in s.sent then s.(calls := s.calls[r := s.calls[r].(place := Waiting)]) else s
    case SendFails(r) => if At(s, r, Sending) then End(s, r, Error) else s
    case Expire(r) => DoExpire(s, r)
    case Resume(r) => DoResume(s, r)
    case Attach(c) => s.(socket := Some(c))
    case Replace => s.(socket := None)
    case Disconnect(c, order) => DoDisconnect(s, c, order)
    case Receive(m) => DoReceive(s, m)
    case Accept(r) => DoAccept(s, r)
    case Answered(r, ans) => DoAnswered(s, r, ans)
    case LoseRequest(r) => s.(toAgent := s.toAgent - {r})
    case LoseAnswer(m) => s.(toHub := s.toHub - {m})
  }

  ghost function Run(acts: seq<Action>): State {
    if acts == [] then START else Act(Run(acts[..|acts| - 1]), acts[|acts| - 1])
  }

  // ----- The invariant -----

  function Count(log: seq<Event>, e: Event): nat {
    if log == [] then 0 else Count(log[..|log| - 1], e) + if log[|log| - 1] == e then 1 else 0
  }

  lemma CountAppend(log: seq<Event>, x: Event, e: Event)
    ensures Count(log + [x], e) == Count(log, e) + if x == e then 1 else 0
  {
    assert (log + [x])[..|log + [x]| - 1] == log;
  }

  /** `m` carries the id of `r`, and from an honest agent it is the answer to that very request. */
  ghost predicate AnsweredBy(s: State, r: nat, req: Request, m: Message) {
    m.id == r && (s.honest ==> r in s.handled && s.handled[r] == (req, m.answer))
  }

  /** The hub's side of one call.  `pending` holds it while it is unfinished and unanswered, and perhaps for the
      moment between its time-out and its end. */
  ghost predicate CallOk(s: State, r: nat) {
    if r in s.calls then
      var k := s.calls[r];
      && (r in s.pending ==> !k.place.Ended? && (k.fut.Open? || (k.fut.Cancelled? && k.place.Expiring?)))
      && (!k.place.Ended? && k.fut.Open? ==> r in s.pending)
      && (k.place.Expiring? ==> !k.fut.Open?)
      && Count(s.log, Completed(r)) == (if k.fut.Open? then 0 else 1)
      && Count(s.log, Finished(r)) == (if k.place.Ended? then 1 else 0)
      && (k.fut.Result? ==> AnsweredBy(s, r, k.req, k.fut.msg))
      && (k.place.Ended? && k.place.outcome.Returned? ==>
            k.fut.Result? && k.fut.msg.answer == Done(k.place.outcome.value))
    else
      r !in s.pending && Count(s.log, Completed(r)) == 0 && Count(s.log, Finished(r)) == 0
  }

  /** One request on its way: sent once, then with the agent, then answered once. */
  ghost predicate WireOk(s: State, r: nat) {
    && (r in s.sent ==> r in s.calls)
    && (r in s.toAgent ==> r in s.calls && r in s.sent && s.toAgent[r] == s.calls[r].req
                           && r !in s.running && r !in s.handled)
    && (r in s.running ==> r in s.calls && r in s.sent && s.running[r] == s.calls[r].req && r !in s.handled)
    && (r in s.handled ==> r in s.calls && r in s.sent && s.handled[r].0 == s.calls[r].req)
  }

  ghost predicate MessageOk(s: State, m: Message) {
    m in s.toHub ==> m.id in s.handled && s.handled[m.id].1 == m.answer
  }

  ghost predicate Inv(s: State) {
    (forall r :: CallOk(s, r)) && (forall r :: WireOk(s, r)) && (forall m :: MessageOk(s, m)) && |s.running| <= SLOTS
  }

  // ----- Every action keeps it -----

  lemma EndKeeps(s: State, r: nat, o: Outcome)
    requires Inv(s) && r in s.calls && !s.calls[r].place.Ended?
    requires o.Returned? ==> s.calls[r].fut.Result? && s.calls[r].fut.msg.answer == Done(o.value)
    ensures Inv(End(s, r, o))
  {
    var s' := End(s, r, o);
    forall q ensures CallOk(s', q) {
      assert CallOk(s, q);
      CountAppend(s.log, Finished(r), Completed(q));
      CountAppend(s.log, Finished(r), Finished(q));
    }
    forall q ensures WireOk(s', q) { assert WireOk(s, q); }
    forall m ensures MessageOk(s', m) { assert MessageOk(s, m); }
  }

  /** Completing a future takes its call out of `pending`, now or in the same step. */
  lemma CompleteKeeps(s: State, r: nat, f: Future)
    requires Inv(s) && r in s.calls && s.calls[r].fut.Open? && !f.Open?
    requires f.Result? ==> AnsweredBy(s, r, s.calls[r].req, f.msg)
    ensures Inv(Complete(s, r, f).(pending := s.pending - {r}))
  {
    var s' := Complete(s, r, f).(pending := s.pending - {r});
    forall q ensures CallOk(s', q) {
      assert CallOk(s, q);
      CountAppend(s.log, Completed(r), Completed(q));
      CountAppend(s.log, Completed(r), Finished(q));
    }
    forall q ensures WireOk(s', q) { assert WireOk(s, q); }
    forall m ensures MessageOk(s', m) { assert MessageOk(s, m); }
  }

  /** Popping a call whose future is done. */
  lemma PopKeeps(s: State, r: nat)
    requires Inv(s) && (r in s.calls ==> !s.calls[r].fut.Open?)
    ensures Inv(s.(pending := s.pending - {r}))
  {
    var s' := s.(pending := s.pending - {r});
    forall q ensures CallOk(s', q) { assert CallOk(s, q); }
    forall q ensures WireOk(s', q) { assert WireOk(s, q); }
    forall m ensures MessageOk(s', m) { assert MessageOk(s, m); }
  }

  lemma CancelKeeps(s: State, r: nat)
    requires Inv(s) && At(s, r, Waiting) && s.calls[r].fut.Open?
    ensures Inv(DoExpire(s, r))
  {
    var s' := DoExpire(s, r);
    forall q ensures CallOk(s', q) {
      assert CallOk(s, q);
      CountAppend(s.log, Completed(r), Completed(q));
      CountAppend(s.log, Completed(r), Finished(q));
    }
    forall q ensures WireOk(s', q) { assert WireOk(s, q); }
    forall m ensures MessageOk(s', m) { assert MessageOk(s, m); }
  }

  lemma ExpireKeeps(s: State, r: nat)
    requires Inv(s)
    ensures Inv(DoExpire(s, r))
  {
    if At(s, r, Waiting) && s.calls[r].fut.Open? {
      CancelKeeps(s, r);
    } else if At(s, r, Waiting) {
      var s' := DoExpire(s, r);
      forall q ensures CallOk(s', q) { assert CallOk(s, q); }
      forall q ensures WireOk(s', q) { assert WireOk(s, q); }
      forall m ensures MessageOk(s', m) { assert MessageOk(s, m); }
    }
  }

  lemma BeginKeeps(s: State, r: nat, req: Request, manage: bool)
    requires Inv(s)
    ensures Inv(DoBegin(s, r, req, manage))
  {
    var s' := DoBegin(s, r, req, manage);
    forall q ensures CallOk(s', q) {
      assert CallOk(s, q);
      CountAppend(s.log, Finished(r), Completed(q));
      CountAppend(s.log, Finished(r), Finished(q));
    }
    forall q ensures WireOk(s', q) { assert WireOk(s, q); }
    forall m ensures MessageOk(s', m) { assert MessageOk(s, m); }
  }

  lemma TransmitKeeps(s: State, r: nat)
    requires Inv(s)
    ensures Inv(Act(s, Transmit(r)))
  {
    var s' := Act(s, Transmit(r));
    forall q ensures CallOk(s', q) { assert CallOk(s, q); }
    forall q ensures WireOk(s', q) { assert WireOk(s, q); }
    forall m ensures MessageOk(s', m) { assert MessageOk(s, m); }
  }

  lemma SendOkKeeps(s: State, r: nat)
    requires Inv(s)
    ensures Inv(Act(s, SendOk(r)))
  {
    var s' := Act(s, SendOk(r));
    forall q ensures CallOk(s', q) { assert CallOk(s, q); }
    forall q ensures WireOk(s', q) { assert WireOk(s, q); }
    forall m ensures MessageOk(s', m) { assert MessageOk(s, m); }
  }

  /** A step that touches only the socket and what is on the wire. */
  lemma WireKeeps(s: State, s': State)
    requires Inv(s) && s'.calls == s.calls && s'.pending == s.pending && s'.log == s.log && s'.sent == s.sent
    requires s'.handled == s.handled && s'.running == s.running && s'.toHub <= s.toHub && (s'.honest ==> s.honest)
    requires forall r :: r in s'.toAgent ==> r in s.toAgent && s'.toAgent[r] == s.toAgent[r]
    ensures Inv(s')
  {
    forall q ensures CallOk(s', q) { assert CallOk(s, q); }
    forall q ensures WireOk(s', q) { assert WireOk(s, q); }
    forall m ensures MessageOk(s', m) { assert MessageOk(s, m); }
  }

  lemma ReceiveKeeps(s: State, m: Message)
    requires Inv(s)
    ensures Inv(DoReceive(s, m))
  {
    var s0 := s.(toHub := s.toHub - {m}, honest := s.honest && (m in s.toHub || m.id !in s.pending));
    WireKeeps(s, s0);
    assert CallOk(s, m.id) && WireOk(s, m.id) && MessageOk(s, m);
    if m.id !in s.pending {
      assert s.pending - {m.id} == s.pending;
    } else if s.calls[m.id].fut.Open? {
      CompleteKeeps(s0, m.id, Result(m));
    } else {
      PopKeeps(s0, m.id);
    }
  }

  lemma BreakKeeps(s: State, r: nat)
    requires Inv(s)
    ensures Inv(Break(s, r).(pending := s.pending - {r}))
  {
    if r in s.calls && s.calls[r].fut.Open? {
      CompleteKeeps(s, r, Broken);
    } else {
      PopKeeps(s, r);
    }
  }

  /** Breaking the futures one by one and then clearing `pending` is the same as popping each as it breaks. */
  lemma {:induction false} BreakAllKeeps(s: State, order: seq<nat>, rest: set<nat>)
    requires Inv(s) && rest == s.pending - set r | r in order
    ensures Inv(BreakAll(s, order).(pending := rest)) && BreakAll(s, order).pending == s.pending
  {
    if order == [] {
      assert s.(pending := rest) == s;
    } else {
      var init, r := order[..|order| - 1], order[|order| - 1];
      var more := s.pending - set q | q in init;
      BreakAllKeeps(s, init, more);
      BreakKeeps(BreakAll(s, init).(pending := more), r);
      assert order == init + [r];
      assert more - {r} == rest;
      BreakCommutes(BreakAll(s, init), r, more, rest);
    }
  }

  lemma BreakCommutes(s: State, r: nat, p: set<nat>, q: set<nat>)
    ensures Break(s.(pending := p), r).(pending := q) == Break(s, r).(pending := q) && Break(s, r).pending == s.pending
  {
  }

  lemma DisconnectKeeps(s: State, c: nat, order: seq<nat>)
    requires Inv(s)
    ensures Inv(DoDisconnect(s, c, order))
  {
    if s.socket == Some(c) && Lists(order, s.pending) {
      assert s.pending - (set r | r in order) == {};
      BreakAllKeeps(s, order, {});
      var s1 := BreakAll(s, order).(pending := {});
      WireKeeps(s1, s1.(socket := None));
    }
  }

  lemma OneMore(m: map<nat, Request>, r: nat, req: Request)
    ensures |m[r := req]| <= |m| + 1
  {
    assert m[r := req].Keys == m.Keys + {r};
    assert |m[r := req]| == |m[r := req].Keys| && |m| == |m.Keys|;
  }

  lemma OneLess(m: map<nat, Request>, r: nat)
    ensures |m - {r}| <= |m|
  {
    assert (m - {r}).Keys == m.Keys - {r};
    assert |m - {r}| == |(m - {r}).Keys| && |m| == |m.Keys|;
  }

  lemma AcceptRuns(s: State, r: nat)
    requires Inv(s) && r in s.toAgent && |s.running| < SLOTS
    ensures Inv(DoAccept(s, r))
  {
    var s' := DoAccept(s, r);
    assert WireOk(s, r) && CallOk(s, r);
    forall q ensures CallOk(s', q) { assert CallOk(s, q); }
    forall q ensures WireOk(s', q) { assert WireOk(s, q); }
    forall m ensures MessageOk(s', m) { assert MessageOk(s, m); }
    OneMore(s.running, r, s.toAgent[r]);
  }

  lemma AcceptBusy(s: State, r: nat)
    requires Inv(s) && r in s.toAgent && |s.running| >= SLOTS
    ensures Inv(DoAccept(s, r))
  {
    var s' := DoAccept(s, r);
    assert WireOk(s, r) && CallOk(s, r);
    forall q ensures CallOk(s', q) { assert CallOk(s, q); }
    forall q ensures WireOk(s', q) { assert WireOk(s, q); }
    forall m ensures MessageOk(s', m) { assert MessageOk(s, m); }
  }

  lemma AcceptKeeps(s: State, r: nat)
    requires Inv(s)
    ensures Inv(DoAccept(s, r))
  {
    if r in s.toAgent {
      if |s.running| < SLOTS {
        AcceptRuns(s, r);
      } else {
        AcceptBusy(s, r);
      }
    }
  }

  lemma AnsweredKeeps(s: State, r: nat, a: Answer)
    requires Inv(s)
    ensures Inv(DoAnswered(s, r, a))
  {
    if r in s.running {
      var s' := DoAnswered(s, r, a);
      assert WireOk(s, r) && CallOk(s, r);
      forall q ensures CallOk(s', q) { assert CallOk(s, q); }
      forall q ensures WireOk(s', q) { assert WireOk(s, q); }
      forall m ensures MessageOk(s', m) { assert MessageOk(s, m); }
      OneLess(s.running, r);
    }
  }

  lemma ActKeeps(s: State, a: Action)
    requires Inv(s)
    ensures Inv(Act(s, a))
  {
    match a
    case Begin(r, req, manage) => BeginKeeps(s, r, req, manage);
    case Transmit(r) => TransmitKeeps(s, r);
    case SendOk(r) => SendOkKeeps(s, r);
    case SendFails(r) => if At(s, r, Sending) { EndKeeps(s, r, Error); }
    case Expire(r) => ExpireKeeps(s, r);
    case Resume(r) =>
      if At(s, r, Waiting) && s.calls[r].fut.Result? {
        var m := s.calls[r].fut.msg;
        EndKeeps(s, r, if m.answer.Done? then Returned(m.answer.value) else Error);
      } else if At(s, r, Expiring) || (At(s, r, Waiting) && s.calls[r].fut.Broken?) {
        EndKeeps(s, r, Error);
      }
    case Attach(c) => WireKeeps(s, s.(socket := Some(c)));
    case Replace => WireKeeps(s, s.(socket := None));
    case Disconnect(c, order) => DisconnectKeeps(s, c, order);
    case Receive(m) => ReceiveKeeps(s, m);
    case Accept(r) => AcceptKeeps(s, r);
    case Answered(r, ans) => AnsweredKeeps(s, r, ans);
    case LoseRequest(r) => WireKeeps(s, s.(toAgent := s.toAgent - {r}));
    case LoseAnswer(m) => WireKeeps(s, s.(toHub := s.toHub - {m}));
  }

  lemma {:induction false} RunKeeps(acts: seq<Action>)
    ensures Inv(Run(acts))
  {
    if acts == [] {
    } else {
      RunKeeps(acts[..|acts| - 1]);
      ActKeeps(Run(acts[..|acts| - 1]), acts[|acts| - 1]);
    }
  }

  // ----- Main results -----

  /** A call returns only what a message with its own id said; if the agent is honest, it is what the agent
      answered to that very request. */
  lemma AnswerIsItsOwn(acts: seq<Action>, r: nat)
    requires var s := Run(acts); r in s.calls && s.calls[r].place.Ended? && s.calls[r].place.outcome.Returned?
    ensures var s := Run(acts);
            var value := s.calls[r].place.outcome.value;
            && s.calls[r].fut == Result(Message(r, Done(value)))
            && (s.honest ==> r in s.handled && s.handled[r] == (s.calls[r].req, Done(value)))
  {
    RunKeeps(acts);
    assert CallOk(Run(acts), r);
  }

  /** No future is completed twice and no call ends twice. */
  lemma OncePerCall(acts: seq<Action>, r: nat)
    ensures Count(Run(acts).log, Completed(r)) <= 1 && Count(Run(acts).log, Finished(r)) <= 1
    ensures var s := Run(acts); r in s.calls && s.calls[r].place.Ended? <==> Count(s.log, Finished(r)) == 1
  {
    RunKeeps(acts);
    assert CallOk(Run(acts), r);
  }

  /** `pending` holds every unfinished call whose future is open, and beside them at most calls that timed out and
      are about to end. */
  lemma PendingIsUnfinished(acts: seq<Action>, r: nat)
    ensures var s := Run(acts); r in s.calls && !s.calls[r].place.Ended? && s.calls[r].fut.Open? ==> r in s.pending
    ensures var s := Run(acts);
            r in s.pending ==>
              && r in s.calls && !s.calls[r].place.Ended?
              && (s.calls[r].fut.Open? || (s.calls[r].fut.Cancelled? && s.calls[r].place.Expiring?))
  {
    RunKeeps(acts);
    assert CallOk(Run(acts), r);
  }

  /** The agent never runs more than 8 handlers. */
  lemma AtMostEightHandlers(acts: seq<Action>)
    ensures |Run(acts).running| <= 8
  {
    RunKeeps(acts);
  }

  lemma RunMore(acts: seq<Action>, a: Action)
    ensures Run(acts + [a]) == Act(Run(acts), a)
  {
    assert (acts + [a])[..|acts|] == acts;
  }

  /** A request that reaches the agent while fewer than 8 handlers run is handled; otherwise it is answered at once
      that the agent is busy. */
  lemma FreeSlotIsUsed(acts: seq<Action>, r: nat)
    requires r in Run(acts).toAgent
    ensures var s, s' := Run(acts), Run(acts + [Accept(r)]);
            && r !in s'.toAgent
            && (if |s.running| < 8 then s'.running == s.running[r := s.toAgent[r]] && s'.toHub == s.toHub
                else s'.running == s.running && s'.toHub == s.toHub + {Message(r, Busy)})
  {
    RunMore(acts, Accept(r));
  }

  /** The hub's part of a call without a fault: the request is out and the caller waits. */
  lemma GetsOut(s: State, r: nat, req: Request)
    requires Inv(s) && s.socket.Some? && r !in s.calls
    ensures var s' := Act(Act(Act(s, Begin(r, req, true)), Transmit(r)), SendOk(r));
            && At(s', r, Waiting) && s'.calls[r].fut.Open? && r in s'.pending
            && s'.running == s.running && r in s'.toAgent && s'.toAgent[r] == req
  {
    assert WireOk(s, r);
  }

  /** The agent's part, with a slot free. */
  lemma AgentAnswers(s: State, r: nat, a: Answer)
    requires r in s.toAgent && |s.running| < 8
    ensures var s' := Act(Act(s, Accept(r)), Answered(r, a));
            s'.calls == s.calls && s'.pending == s.pending && Message(r, a) in s'.toHub
  {
    assert r in Act(s, Accept(r)).running;
  }

  lemma AnswerComesIn(s: State, r: nat, a: Answer)
    requires At(s, r, Waiting) && s.calls[r].fut.Open? && r in s.pending
    ensures var s' := Act(s, Receive(Message(r, a))); At(s', r, Waiting) && s'.calls[r].fut == Result(Message(r, a))
  {
  }

  lemma CallerReturns(s: State, r: nat, a: Answer)
    requires At(s, r, Waiting) && s.calls[r].fut == Result(Message(r, a))
    ensures At(Act(s, Resume(r)), r, Ended(if a.Done? then Returned(a.value) else Error))
  {
  }

  /** From every reachable state with a socket and a free slot, a new call that meets no fault returns what the
      agent answered. */
  lemma CallCompletes(acts: seq<Action>, r: nat, req: Request, a: Answer)
    ensures var s := Run(acts);
            var out := acts + [Begin(r, req, true)] + [Transmit(r)] + [SendOk(r)];
            var s' := Run(out + [Accept(r)] + [Answered(r, a)] + [Receive(Message(r, a))] + [Resume(r)]);
            s.socket.Some? && r !in s.calls && |s.running| < 8 ==>
              At(s', r, Ended(if a.Done? then Returned(a.value) else Error))
  {
    var s := Run(acts);
    if s.socket.Some? && r !in s.calls && |s.running| < 8 {
      RunKeeps(acts);
      GetsOut(s, r, req);
      RunMore(acts, Begin(r, req, true));
      RunMore(acts + [Begin(r, req, true)], Transmit(r));
      var sent := acts + [Begin(r, req, true)] + [Transmit(r)];
      RunMore(sent, SendOk(r));
      var out := sent + [SendOk(r)];
      AgentAnswers(Run(out), r, a);
      RunMore(out, Accept(r));
      RunMore(out + [Accept(r)], Answered(r, a));
      var answered := out + [Accept(r)] + [Answered(r, a)];
      AnswerComesIn(Run(answered), r, a);
      RunMore(answered, Receive(Message(r, a)));
      CallerReturns(Run(answered + [Receive(Message(r, a))]), r, a);
      RunMore(answered + [Receive(Message(r, a))], Resume(r));
    }
  }
}
