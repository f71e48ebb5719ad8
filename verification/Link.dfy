/** The agent's sample buffer and its wake-up channel (agent/internal/link/link.go).

    The sampler goroutine pushes; the session goroutine takes the whole queue, sends it sample by
    sample, puts the rest back when a send fails, and otherwise waits.  The two interleave at every
    lock and channel operation.
 */
module Link {
  import opened Common

  const MAX_BUFFERED := 120

  /** The newest `n` elements. */
  function Last<T>(s: seq<T>, n: nat): (r: seq<T>)
    requires n <= |s|
    ensures |r| == n
  {
    s[|s| - n..]
  }

  function Capped<T>(q: seq<T>): seq<T> {
    Last(q, Min(|q|, MAX_BUFFERED))
  }

  /** The session's place in its loop.  `start` is where the batch begins in the sequence of all samples pushed. */
  datatype Session<T> =
    | Off
    | Taking
    | Sending(batch: seq<T>, sent: nat, start: nat)
    | Failed(rest: seq<T>, start: nat)      // a send failed, the rest not yet put back
    | Waiting                               // blocked in select

  /** `pushed`, `sentUpTo` and `sentAt` record the past: all samples, the position after the last one sent,
      and the positions sent. */
  datatype State<T> = State(queue: seq<T>, wake: bool, signalling: bool, session: Session<T>,
                            pushed: seq<T>, sentUpTo: nat, sentAt: seq<nat>)

  datatype Action<T> =
    | Push(x: T)       // under the lock
    | Signal           // the non-blocking send on wake that follows
    | Connect
    | Take
    | SendOk
    | SendFails
    | Requeue
    | Wake             // the receive from wake
    | PingOk
    | Leave            // stopped, read error or failed ping

  function Start<T>(): State<T> {
    State([], false, false, Off, [], 0, [])
  }

  function AfterTake<T>(s: State<T>): State<T> {
    s.(queue := [], session := if s.queue == [] then Waiting
               else Sending(s.queue, 0, |s.pushed| - Min(|s.queue|, |s.pushed|)))
  }

  function AfterSend<T>(s: State<T>): State<T>
    requires s.session.Sending?
  {
    var Sending(batch, sent, start) := s.session;
    if sent >= |batch| then s.(session := Waiting)
    else s.(session := if sent + 1 == |batch| then Waiting else Sending(batch, sent + 1, start),
            sentUpTo := start + sent + 1, sentAt := s.sentAt + [start + sent])
  }

  function Act<T>(s: State<T>, a: Action<T>): State<T> {
    match a
    case Push(x) =>
      if s.signalling then s
      else s.(queue := Capped(s.queue + [x]), pushed := s.pushed + [x], signalling := true)
    case Signal => if s.signalling then s.(wake := true, signalling := false) else s
    case Connect => if s.session.Off? then s.(session := Taking) else s
    case Take => if s.session.Taking? then AfterTake(s) else s
    case SendOk => if s.session.Sending? then AfterSend(s) else s
    case SendFails =>
      if s.session.Sending? && s.session.sent < |s.session.batch|
      then s.(session := Failed(s.session.batch[s.session.sent..], s.session.start + s.session.sent))
      else s
    case Requeue => if s.session.Failed? then s.(queue := Capped(s.session.rest + s.queue), session := Off) else s
    case Wake => if s.session.Waiting? && s.wake then s.(session := Taking, wake := false) else s
    case PingOk => if s.session.Waiting? then s.(session := Taking) else s
    case Leave => if s.session.Waiting? || s.session.Taking? then s.(session := Off) else s
  }

  function Run<T>(acts: seq<Action<T>>): State<T> {
    if acts == [] then Start() else Act(Run(acts[..|acts| - 1]), acts[|acts| - 1])
  }

  // ----- The invariant -----

  /** Samples pushed after the last one sent. */
  function Unsent<T>(s: State<T>): int {
    |s.pushed| - s.sentUpTo
  }

  ghost predicate IsNewest<T>(q: seq<T>, all: seq<T>, since: nat) {
    since <= |all| && q == Last(all, Min(MAX_BUFFERED, |all| - since))
  }

  /** A batch that ends at `end` is the newest of what was unsent then; the queue is the newest since. */
  ghost predicate BatchOk<T>(queue: seq<T>, pushed: seq<T>, sentUpTo: nat, rest: seq<T>, start: nat) {
    && sentUpTo <= start && start + |rest| <= |pushed|
    && rest == pushed[start..start + |rest|]
    && |rest| == Min(MAX_BUFFERED, start + |rest| - sentUpTo)
    && IsNewest(queue, pushed, start + |rest|)
  }

  ghost predicate QueueOk<T>(s: State<T>) {
    match s.session
    case Sending(batch, sent, start) =>
      sent < |batch| && BatchOk(s.queue, s.pushed, s.sentUpTo, batch[sent..], start + sent)
    case Failed(rest, start) => BatchOk(s.queue, s.pushed, s.sentUpTo, rest, start)
    case _ => IsNewest(s.queue, s.pushed, s.sentUpTo)
  }

  ghost predicate WakeOk<T>(s: State<T>) {
    s.session.Sending? || s.session.Waiting? ==> s.queue == [] || s.wake || s.signalling
  }

  ghost predicate Increasing(a: seq<nat>, bound: nat) {
    (forall i, j :: 0 <= i < j < |a| ==> a[i] < a[j]) && (forall i :: 0 <= i < |a| ==> a[i] < bound)
  }

  ghost predicate Inv<T>(s: State<T>) {
    QueueOk(s) && WakeOk(s) && Increasing(s.sentAt, s.sentUpTo)
  }

  lemma PushNewest<T>(q: seq<T>, all: seq<T>, since: nat, x: T)
    requires IsNewest(q, all, since)
    ensures IsNewest(Capped(q + [x]), all + [x], since)
  {
    var n := Min(MAX_BUFFERED, |all| - since);
    assert q + [x] == Last(all + [x], n + 1);
    assert Capped(q + [x]) == Last(all + [x], Min(MAX_BUFFERED, |all| + 1 - since));
  }

  lemma PushBatch<T>(queue: seq<T>, pushed: seq<T>, sentUpTo: nat, rest: seq<T>, start: nat, x: T)
    requires BatchOk(queue, pushed, sentUpTo, rest, start)
    ensures BatchOk(Capped(queue + [x]), pushed + [x], sentUpTo, rest, start)
  {
    PushNewest(queue, pushed, start + |rest|, x);
  }

  lemma PushKeeps<T>(s: State<T>, x: T)
    requires QueueOk(s)
    ensures QueueOk(s.(queue := Capped(s.queue + [x]), pushed := s.pushed + [x], signalling := true))
  {
    match s.session
    case Sending(batch, sent, start) => PushBatch(s.queue, s.pushed, s.sentUpTo, batch[sent..], start + sent, x);
    case Failed(rest, start) => PushBatch(s.queue, s.pushed, s.sentUpTo, rest, start, x);
    case _ => PushNewest(s.queue, s.pushed, s.sentUpTo, x);
  }

  /** Putting the rest back leaves the newest of everything unsent. */
  lemma RequeueNewest<T>(queue: seq<T>, pushed: seq<T>, sentUpTo: nat, rest: seq<T>, start: nat)
    requires BatchOk(queue, pushed, sentUpTo, rest, start)
    ensures IsNewest(Capped(rest + queue), pushed, sentUpTo)
  {
    var end := start + |rest|;
    if |pushed| - end >= MAX_BUFFERED {
      assert Capped(rest + queue) == queue;
    } else {
      assert queue == pushed[end..];
      assert rest + queue == pushed[start..];
      assert Capped(rest + queue) == Last(pushed, Min(|pushed| - start, MAX_BUFFERED));
    }
  }

  lemma SendNext<T>(queue: seq<T>, pushed: seq<T>, sentUpTo: nat, rest: seq<T>, start: nat)
    requires BatchOk(queue, pushed, sentUpTo, rest, start) && rest != []
    ensures BatchOk(queue, pushed, start + 1, rest[1..], start + 1)
    ensures |rest| == 1 ==> IsNewest(queue, pushed, start + 1)
  {
    assert rest[1..] == pushed[start + 1..start + |rest|];
  }

  lemma SendKeeps<T>(s: State<T>)
    requires QueueOk(s) && s.session.Sending?
    ensures QueueOk(AfterSend(s))
  {
    var Sending(batch, sent, start) := s.session;
    SendNext(s.queue, s.pushed, s.sentUpTo, batch[sent..], start + sent);
    assert batch[sent + 1..] == batch[sent..][1..];
  }

  lemma IncreasingAppend(a: seq<nat>, bound: nat, next: nat)
    requires Increasing(a, bound) && bound <= next
    ensures Increasing(a + [next], next + 1)
  {
  }

  lemma TakeKeeps<T>(s: State<T>)
    requires QueueOk(s) && s.session.Taking?
    ensures QueueOk(AfterTake(s))
  {
    if s.queue != [] {
      assert s.queue[0..] == s.queue;
      assert BatchOk([], s.pushed, s.sentUpTo, s.queue, |s.pushed| - |s.queue|);
    }
  }

  lemma ActKeeps<T>(s: State<T>, a: Action<T>)
    requires Inv(s)
    ensures Inv(Act(s, a))
  {
    match a
    case Push(x) => PushKeeps(s, x);
    case Requeue =>
      if s.session.Failed? {
        RequeueNewest(s.queue, s.pushed, s.sentUpTo, s.session.rest, s.session.start);
      }
    case SendOk =>
      if s.session.Sending? {
        SendKeeps(s);
        IncreasingAppend(s.sentAt, s.sentUpTo, s.session.start + s.session.sent);
      }
    case Take =>
      if s.session.Taking? {
        TakeKeeps(s);
      }
    case _ =>
  }

  lemma {:induction false} RunKeeps<T>(acts: seq<Action<T>>)
    ensures Inv(Run(acts))
  {
    if acts == [] {
    } else {
      RunKeeps(acts[..|acts| - 1]);
      ActKeeps(Run(acts[..|acts| - 1]), acts[|acts| - 1]);
    }
  }

  // ----- Main results -----

  /** The queue is always the end of everything pushed, and at most 120 long. */
  lemma QueueIsSuffix<T>(acts: seq<Action<T>>)
    ensures var s := Run(acts);
            |s.queue| <= 120 && |s.queue| <= |s.pushed| && s.queue == Last(s.pushed, |s.queue|)
  {
    RunKeeps(acts);
  }

  /** After a failed send was put back, the queue is exactly the newest min(120, unsent) samples in order. */
  lemma RequeuedAllUnsent<T>(acts: seq<Action<T>>)
    requires Run(acts).session.Failed?
    ensures var s := Act(Run(acts), Requeue);
            s.sentUpTo <= |s.pushed| && s.queue == Last(s.pushed, Min(120, |s.pushed| - s.sentUpTo))
  {
    RunKeeps(acts);
    ActKeeps(Run(acts), Requeue);
  }

  /** No lost wake-up: a session that waits with samples queued has a token, or one is about to be put. */
  lemma NoLostWakeup<T>(acts: seq<Action<T>>)
    ensures var s := Run(acts); s.session.Waiting? && s.queue != [] ==> s.wake || s.signalling
  {
    RunKeeps(acts);
  }

  /** Samples whose sending succeeded were sent in the order pushed and none twice. */
  lemma SentInOrder<T>(acts: seq<Action<T>>, i: nat, j: nat)
    requires i < j < |Run(acts).sentAt|
    ensures Run(acts).sentAt[i] < Run(acts).sentAt[j]
  {
    RunKeeps(acts);
  }

  /** The next sample sent follows the last one directly, unless more than 120 were waiting. */
  lemma NoGapInBriefOutage<T>(acts: seq<Action<T>>)
    requires Run(acts).session.Sending?
    ensures var s := Run(acts);
            var next := s.session.start + s.session.sent;
            next == s.sentUpTo || (next > s.sentUpTo && Unsent(s) > MAX_BUFFERED)
  {
    RunKeeps(acts);
  }

  // ----- The buffer in place -----

  ghost predicate SameSession<T>(was: State<T>, now: State<T>) {
    now.session == was.session && now.sentUpTo == was.sentUpTo
  }

  /** What the sampler does next: its part under the lock, or the signal that follows it. */
  datatype Sampler<T> = Pushes(x: T) | Signals

  /** The agent's fields as its two goroutines change them.  The ghost fields record the run; `Valid` says that
      the fields are what it gives, so that the results above hold of every object in use. */
  class Agent<T> {
    var queue: seq<T>
    var wake: bool
    /** Where the sampler stands: between its lock and its signal. */
    var signalling: bool

    ghost var world: State<T>
    ghost var acts: seq<Action<T>>

    ghost predicate Valid()
      reads this
    {
      world == Run(acts) && queue == world.queue && wake == world.wake && signalling == world.signalling
    }

    constructor ()
      ensures Valid() && queue == [] && !wake && world.session.Off? && !signalling
    {
      queue, wake, signalling := [], false, false;
      world, acts := Start(), [];
    }

    /** The run grows by one action, which the fields already reflect. */
    ghost method Did(a: Action<T>)
      requires world == Run(acts) && queue == Act(world, a).queue && wake == Act(world, a).wake
      requires signalling == Act(world, a).signalling
      modifies this`world, this`acts
      ensures Valid() && acts == old(acts) + [a] && world == Act(old(world), a)
    {
      assert (acts + [a])[..|acts|] == acts;
      world := Act(world, a);
      acts := acts + [a];
    }

    /** The part of `push` under the lock: the sampler has no signal outstanding. */
    method PushLocked(x: T)
      requires Valid() && !signalling
      modifies this
      ensures Valid() && acts == old(acts) + [Push(x)] && signalling
      ensures world.pushed == old(world.pushed) + [x] && SameSession(old(world), world)
      ensures |queue| <= |world.pushed| && queue == Last(world.pushed, |queue|) && |queue| <= MAX_BUFFERED
    {
      queue := queue + [x];
      var over := |queue| - MAX_BUFFERED;
      if over > 0 {
        queue := queue[over..];
      }
      signalling := true;
      Did(Push(x));
      QueueIsSuffix(acts);
    }

    /** The non-blocking send that follows: a token is there, an old one or this one. */
    method SignalWake()
      requires Valid() && signalling
      modifies this
      ensures Valid() && acts == old(acts) + [Signal] && !signalling && wake
      ensures world.pushed == old(world.pushed) && SameSession(old(world), world)
    {
      if !wake {
        wake := true;
      }
      signalling := false;
      Did(Signal);
    }

    /** What the sampler does while the session is busy elsewhere; it may be left between lock and signal. */
    method Sample(steps: seq<Sampler<T>>)
      requires Valid()
      modifies this
      ensures Valid() && SameSession(old(world), world)
      ensures old(world.pushed) <= world.pushed
    {
      for i := 0 to |steps|
        invariant Valid() && SameSession(old(world), world) && old(world.pushed) <= world.pushed
      {
        if steps[i].Pushes? && !signalling {
          PushLocked(steps[i].x);
        } else if steps[i].Signals? && signalling {
          SignalWake();
        }
      }
    }

    /** A session starts. */
    ghost method Dial()
      requires Valid() && world.session.Off?
      modifies this`world, this`acts
      ensures Valid() && acts == old(acts) + [Connect] && world.session.Taking?
      ensures signalling == old(signalling)
    {
      Did(Connect);
    }

    /** The select at the end of a turn: a token is received, a ping answered, or the session ends. */
    method Await(ends: bool, pinged: bool)
      requires Valid() && world.session.Waiting? && (ends || pinged || wake)
      modifies this
      ensures Valid() && signalling == old(signalling) && queue == old(queue)
      ensures if ends then world.session.Off? else world.session.Taking?
      ensures wake == (old(wake) && (ends || pinged))
    {
      if ends {
        Did(Leave);
      } else if pinged {
        Did(PingOk);
      } else {
        wake := false;
        Did(Wake);
      }
    }

    /** `take`: what the session gets is the newest of everything unsent, at most 120 samples, in order. */
    method TakeAll() returns (q: seq<T>)
      requires Valid() && world.session.Taking?
      modifies this
      ensures Valid() && acts == old(acts) + [Take] && world == Act(old(world), Take)
      ensures world.sentUpTo <= |world.pushed|
      ensures q == Last(world.pushed, Min(MAX_BUFFERED, |world.pushed| - world.sentUpTo))
      ensures world.session == if q == [] then Waiting else Sending(q, 0, |world.pushed| - |q|)
    {
      RunKeeps(acts);
      q := queue;
      queue := [];
      Did(Take);
    }

    /** `requeue`: afterwards the queue is the newest of everything unsent. */
    method PutBack(rest: seq<T>)
      requires Valid() && world.session.Failed? && world.session.rest == rest
      modifies this
      ensures Valid() && acts == old(acts) + [Requeue] && world == Act(old(world), Requeue)
      ensures world.sentUpTo <= |world.pushed| && world.session.Off?
      ensures queue == Last(world.pushed, Min(MAX_BUFFERED, |world.pushed| - world.sentUpTo))
    {
      RequeuedAllUnsent(acts);
      queue := rest + queue;
      var over := |queue| - MAX_BUFFERED;
      if over > 0 {
        queue := queue[over..];
      }
      Did(Requeue);
    }

    ghost method DidSend(batch: seq<T>, i: nat, start: nat)
      requires Valid() && i < |batch| && world.session == Sending(batch, i, start)
      modifies this`world, this`acts
      ensures Valid() && world.session == if i + 1 == |batch| then Waiting else Sending(batch, i + 1, start)
      ensures world.sentUpTo == start + i + 1
      ensures world.pushed == old(world).pushed
    {
      Did(SendOk);
    }

    ghost method DidFail(batch: seq<T>, i: nat, start: nat)
      requires Valid() && i < |batch| && world.session == Sending(batch, i, start)
      modifies this`world, this`acts
      ensures Valid() && world.session == Failed(batch[i..], start + i)
      ensures world.pushed == old(world).pushed
    {
      Did(SendFails);
    }

    /** A session that waits has a token for what is queued, or is about to get one. */
    lemma WaitingIsSafe()
      requires Valid() && world.session.Waiting?
      ensures world.sentUpTo <= |world.pushed| && (queue != [] ==> wake || signalling)
    {
      NoLostWakeup(acts);
      RunKeeps(acts);
    }

    /** One turn of the session loop: take, send sample by sample, put the rest back at the first failure.
        `fails(i)` is the fate of the i-th send and `meanwhile(i)` what the sampler does while it goes on. */
    method SendQueued(fails: nat -> bool, meanwhile: nat -> seq<Sampler<T>>) returns (ok: bool)
      requires Valid() && world.session.Taking?
      modifies this
      ensures Valid() && world.sentUpTo <= |world.pushed|
      ensures if ok then world.session.Waiting? else world.session.Off?
      // after success everything pushed before the turn is sent; what is queued came during it and will be seen
      ensures ok ==> world.sentUpTo == old(|world.pushed|) && (queue != [] ==> wake || signalling)
      // it succeeds if every send does
      ensures (forall i :: !fails(i)) ==> ok
      // after a failure the queue is the newest of everything unsent
      ensures !ok ==> queue == Last(world.pushed, Min(MAX_BUFFERED, |world.pushed| - world.sentUpTo))
    {
      ok := true;
      ghost var end := |world.pushed|;
      var batch := TakeAll();
      var i := 0;
      while i < |batch|
        invariant Valid() && 0 <= i <= |batch| <= end
        invariant world.session == if i == |batch| then Waiting else Sending(batch, i, end - |batch|)
        invariant i > 0 || batch == [] ==> world.sentUpTo == end - |batch| + i
      {
        Sample(meanwhile(i));
        if fails(i) {
          DidFail(batch, i, end - |batch|);
          PutBack(batch[i..]);
          return false;
        }
        DidSend(batch, i, end - |batch|);
        i := i + 1;
      }
      WaitingIsSafe();
    }
  }
}
