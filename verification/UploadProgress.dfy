/** That uploads succeed (agent/internal/actions/fs.go): one chunk of a client, from its sending to its answer,
    while any other clients do what they like in between.
 */
module UploadProgress {
  import opened Common
  import opened Upload

  /** Client `c` sends `chunk` as request `r`; `n` is its temporary file, `acked` what is acknowledged so far. */
  datatype Job = Job(c: nat, r: nat, n: nat, path: string, acked: Bytes, chunk: Bytes, final: bool)

  predicate Legal(j: Job) {
    !j.final ==> j.chunk != []
  }

  /** The steps of the chunk itself, without a fault. */
  function Own(j: Job): seq<Action> {
    [Send(j.c, j.r, j.chunk, j.final), Open(j.r, j.n), Write(j.r, |j.chunk|), Finish(j.r)]
    + (if j.final then [Rename(j.r)] else []) + [Deliver(j.r)]
  }

  /** Anything that is not about this client, this request or this temporary file. */
  predicate Foreign(a: Action, j: Job) {
    match a
    case Begin(c, _) => c != j.c
    case Send(c, r, _, _) => c != j.c && r != j.r
    case Open(r, n) => r != j.r && n != j.n
    case Unlink(n) => n != j.n
    case GiveUp(c) => c != j.c
    case Write(r, _) => r != j.r
    case WriteFails(r) => r != j.r
    case Finish(r) => r != j.r
    case Rename(r) => r != j.r
    case RenameFails(r) => r != j.r
    case Remove(r) => r != j.r
    case Die(r) => r != j.r
    case Deliver(r) => r != j.r
  }

  /** `acts` is `own` in order with foreign actions in between. */
  ghost predicate Interleaves(acts: seq<Action>, own: seq<Action>, j: Job) {
    if acts == [] then own == []
    else
      var init, a := acts[..|acts| - 1], acts[|acts| - 1];
      || (Foreign(a, j) && Interleaves(init, own, j))
      || (own != [] && a == own[|own| - 1] && Interleaves(init, own[..|own| - 1], j))
  }

  // ----- How far the chunk has come -----

  ghost predicate FileReady(s: State, j: Job, upload: Option<nat>) {
    if j.acked == [] then j.n !in s.owner else upload == Some(j.n) && j.n in s.temps
  }

  ghost predicate Waiting(s: State, j: Job, upload: Option<nat>) {
    && j.c in s.clients
    && s.clients[j.c] == Client(j.path, j.acked, j.chunk, j.final, upload, j.r, Awaiting)
  }

  function HandlerAt(j: Job, upload: Option<nat>, stage: Stage, temp: nat): Handler {
    Handler(j.c, j.path, j.chunk, |j.acked|, j.final, upload, stage, temp)
  }

  ghost predicate InStage(s: State, j: Job, upload: Option<nat>, stage: Stage) {
    && Waiting(s, j, upload) && j.r in s.handlers && s.handlers[j.r] == HandlerAt(j, upload, stage, j.n)
    && ((stage.Replied? && j.final) || j.n in s.temps)
  }

  ghost predicate Idle(s: State, j: Job, upload: Option<nat>) {
    && j.c in s.clients && j.r !in s.requests && FileReady(s, j, upload)
    && var x := s.clients[j.c]; x.path == j.path && x.acked == j.acked && x.upload == upload && x.phase.Ready?
  }

  ghost predicate Sent(s: State, j: Job, upload: Option<nat>) {
    && Waiting(s, j, upload) && j.r in s.handlers && FileReady(s, j, upload)
    && s.handlers[j.r] == HandlerAt(j, upload, Opening, 0)
  }

  /** The client knows: the chunk is acknowledged, or the upload has succeeded. */
  ghost predicate Answered(s: State, j: Job, upload: Option<nat>) {
    && j.c in s.clients
    && s.clients[j.c] == (if j.final then Client(j.path, j.acked, j.chunk, true, upload, j.r, Stopped(true))
                          else Client(j.path, j.acked + j.chunk, [], false, Some(j.n), j.r, Ready))
    && (j.final || j.n in s.temps)
  }

  /** Where the chunk is after `k` of its own steps. */
  ghost predicate Reached(s: State, j: Job, upload: Option<nat>, k: nat) {
    if k == 0 then Idle(s, j, upload)
    else if k == 1 then Sent(s, j, upload)
    else if k == 2 then InStage(s, j, upload, Writing(0))
    else if k == 3 then InStage(s, j, upload, Writing(|j.chunk|))
    else if k == 4 then InStage(s, j, upload, if j.final then Renaming else Replied(true))
    else if k == 5 && j.final then InStage(s, j, upload, Replied(true))
    else Answered(s, j, upload)
  }

  // ----- Foreign actions do not disturb it -----

  /** The client is about to send `r`, or `r` is its latest request: no other request is of this client. */
  ghost predicate Engaged(s: State, j: Job) {
    j.c in s.clients && (s.clients[j.c].phase.Ready? || s.clients[j.c].req == j.r)
  }

  lemma NotOfClient(s: State, j: Job, q: nat)
    requires Inv(s) && Engaged(s, j) && q in s.handlers && q != j.r
    ensures s.handlers[q].client != j.c
  {
    assert HandlerOk(s, q) && ClientOk(s, j.c);
  }

  lemma ForeignClient(s: State, a: Action, j: Job)
    requires Inv(s) && Engaged(s, j) && Foreign(a, j)
    ensures j.c in Act(s, a).clients && Act(s, a).clients[j.c] == s.clients[j.c]
  {
    if a.Deliver? && a.r in s.handlers {
      NotOfClient(s, j, a.r);
    } else if !a.Begin? && !a.Send? && !a.GiveUp? && !a.Deliver? {
      ClientsUnchanged(s, a);
    }
  }

  predicate KeepsHandler(was: map<nat, Handler>, now: map<nat, Handler>, r: nat) {
    r in was ==> r in now && now[r] == was[r]
  }

  /** The request, the file and the handler of the job are as they were. */
  ghost predicate Untouched(s: State, s': State, j: Job) {
    && KeepsHandler(s.handlers, s'.handlers, j.r) && (j.r !in s.requests ==> j.r !in s'.requests)
    && (j.n in s.temps ==> j.n in s'.temps) && (j.n !in s.owner ==> j.n !in s'.owner)
  }

  lemma ForeignSend(s: State, c: nat, r: nat, chunk: Bytes, final: bool, j: Job)
    requires r != j.r
    ensures Untouched(s, DoSend(s, c, r, chunk, final), j)
  {
  }

  lemma ForeignOpen(s: State, r: nat, n: nat, j: Job)
    requires r != j.r && n != j.n
    ensures Untouched(s, DoOpen(s, r, n), j)
  {
  }

  lemma ForeignWrite(s: State, r: nat, n: nat, j: Job)
    requires r != j.r
    ensures Untouched(s, DoWrite(s, r, n), j)
  {
  }

  lemma ForeignStage(s: State, r: nat, j: Job)
    requires r != j.r
    ensures Untouched(s, DoFinish(s, r), j) && Untouched(s, DoFail(s, r), j)
  {
  }

  lemma ForeignDeliver(s: State, r: nat, j: Job)
    requires r != j.r
    ensures Untouched(s, DoDeliver(s, r), j)
  {
  }

  lemma ForeignRename(s: State, r: nat, j: Job)
    requires Inv(s) && Engaged(s, j) && r != j.r && (j.n in s.temps ==> j.n in s.owner && s.owner[j.n] == j.c)
    ensures Untouched(s, DoRename(s, r), j) && Untouched(s, DoRemove(s, r), j)
  {
    if r in s.handlers {
      NotOfClient(s, j, r);
      assert HandlerOk(s, r);
    }
  }

  /** Its own file, request and handler stay. */
  lemma ForeignFiles(s: State, a: Action, j: Job)
    requires Inv(s) && Engaged(s, j) && Foreign(a, j)
    requires j.n in s.temps ==> j.n in s.owner && s.owner[j.n] == j.c
    ensures Untouched(s, Act(s, a), j)
  {
    match a
    case Begin(_, _) =>
    case Send(c, r, chunk, final) => ForeignSend(s, c, r, chunk, final, j);
    case Open(r, n) => ForeignOpen(s, r, n, j);
    case Write(r, n) => ForeignWrite(s, r, n, j);
    case WriteFails(r) => ForeignStage(s, r, j);
    case Finish(r) => ForeignStage(s, r, j);
    case Rename(r) => ForeignRename(s, r, j);
    case RenameFails(r) => ForeignStage(s, r, j);
    case Remove(r) => ForeignRename(s, r, j);
    case Die(_) =>
    case Deliver(r) => ForeignDeliver(s, r, j);
    case GiveUp(_) =>
    case Unlink(_) =>
  }

  /** A file still linked is the client's. */
  lemma FileIsOwn(s: State, j: Job, upload: Option<nat>, k: nat)
    requires Inv(s) && Legal(j) && Reached(s, j, upload, k) && j.n in s.temps && (j.final ==> k < 5)
    ensures j.n in s.owner && s.owner[j.n] == j.c
  {
    assert ClientOk(s, j.c) && HandlerOk(s, j.r);
    assert j.chunk != [] ==> j.acked + j.chunk != [];
  }

  lemma ForeignKeeps(s: State, a: Action, j: Job, upload: Option<nat>, k: nat)
    requires Inv(s) && Legal(j) && Reached(s, j, upload, k) && Foreign(a, j)
    ensures Reached(Act(s, a), j, upload, k)
  {
    ForeignClient(s, a, j);
    if k < 5 || !j.final {
      if j.n in s.temps {
        FileIsOwn(s, j, upload, k);
      }
      ForeignFiles(s, a, j);
    } else if k == 5 {
      ForeignHandler(s, a, j);
    }
  }

  lemma ForeignHandler(s: State, a: Action, j: Job)
    requires Foreign(a, j)
    ensures KeepsHandler(s.handlers, Act(s, a).handlers, j.r)
  {
    match a
    case Send(c, r, chunk, final) => ForeignSend(s, c, r, chunk, final, j);
    case Open(r, n) => ForeignOpen(s, r, n, j);
    case Write(r, n) => ForeignWrite(s, r, n, j);
    case Deliver(r) => ForeignDeliver(s, r, j);
    case _ =>
  }

  // ----- Its own steps advance it -----

  lemma OwnSend(s: State, j: Job, upload: Option<nat>)
    requires Legal(j) && Idle(s, j, upload)
    ensures Sent(DoSend(s, j.c, j.r, j.chunk, j.final), j, upload)
  {
  }

  lemma OwnOpen(s: State, j: Job, upload: Option<nat>)
    requires Sent(s, j, upload)
    ensures InStage(DoOpen(s, j.r, j.n), j, upload, Writing(0))
  {
  }

  lemma OwnWrite(s: State, j: Job, upload: Option<nat>)
    requires Inv(s) && InStage(s, j, upload, Writing(0))
    ensures InStage(DoWrite(s, j.r, |j.chunk|), j, upload, Writing(|j.chunk|))
  {
    assert HandlerOk(s, j.r);
  }

  lemma OwnAnswer(s: State, j: Job, upload: Option<nat>)
    requires InStage(s, j, upload, Replied(true))
    ensures Answered(DoDeliver(s, j.r), j, upload)
  {
  }

  lemma OwnSteps(s: State, j: Job, upload: Option<nat>, k: nat)
    requires Inv(s) && Legal(j) && k < |Own(j)| && Reached(s, j, upload, k)
    ensures Reached(Act(s, Own(j)[k]), j, upload, k + 1)
  {
    if k == 0 {
      OwnSend(s, j, upload);
    } else if k == 1 {
      OwnOpen(s, j, upload);
    } else if k == 2 {
      OwnWrite(s, j, upload);
    } else if k == |Own(j)| - 1 {
      OwnAnswer(s, j, upload);
    }
  }

  // ----- Main results -----

  /** In any run that follows, with the chunk's own steps in order and without a fault, and anything foreign in
      between, the chunk gets as far as its steps. */
  lemma {:induction false} Proceeds(s: State, acts: seq<Action>, j: Job, upload: Option<nat>, k: nat)
    requires Inv(s) && Legal(j) && Idle(s, j, upload)
    requires k <= |Own(j)| && Interleaves(acts, Own(j)[..k], j)
    ensures Inv(Run(s, acts)) && Reached(Run(s, acts), j, upload, k)
  {
    if acts == [] {
    } else {
      var init, a := acts[..|acts| - 1], acts[|acts| - 1];
      if Foreign(a, j) && Interleaves(init, Own(j)[..k], j) {
        Proceeds(s, init, j, upload, k);
        ForeignKeeps(Run(s, init), a, j, upload, k);
      } else {
        assert Own(j)[..k][..k - 1] == Own(j)[..k - 1];
        Proceeds(s, init, j, upload, k - 1);
        OwnSteps(Run(s, init), j, upload, k - 1);
      }
      ActKeeps(Run(s, init), a);
    }
  }

  /** From every reachable state: a client that is ready, and whose file is still linked, sends its next chunk,
      which is opened, written, finished, renamed if it is the last, and answered; others do what they like in
      between.  Then the client has the chunk acknowledged, with its file still linked for the next one, or is
      told of success. */
  lemma ChunkSucceeds(original: map<string, Bytes>, before: seq<Action>, acts: seq<Action>, j: Job, upload: Option<nat>)
    requires Legal(j) && Idle(Run(Start(original), before), j, upload) && Interleaves(acts, Own(j), j)
    ensures var now := Run(Run(Start(original), before), acts);
            && j.c in now.clients && now.clients[j.c].path == j.path
            && if j.final
               then now.clients[j.c].phase == Stopped(true) && Whole(now.clients[j.c]) == j.acked + j.chunk
               else && now.clients[j.c].phase == Ready && now.clients[j.c].acked == j.acked + j.chunk
                    && now.clients[j.c].upload == Some(j.n) && j.n in now.temps
  {
    RunKeeps(original, before);
    assert Own(j)[..|Own(j)|] == Own(j);
    Proceeds(Run(Start(original), before), acts, j, upload, |Own(j)|);
  }

  lemma RenameReplaces(s: State, j: Job, upload: Option<nat>)
    requires Inv(s) && j.final && InStage(s, j, upload, Renaming)
    ensures Content(Act(s, Rename(j.r)), j.path) == Some(j.acked + j.chunk)
  {
    assert HandlerOk(s, j.r);
  }

  /** At the moment of its rename the path holds exactly the whole data, whatever others did before. */
  lemma TargetReplaced(original: map<string, Bytes>, before: seq<Action>, acts: seq<Action>, j: Job,
                       upload: Option<nat>)
    requires j.final && Idle(Run(Start(original), before), j, upload) && Interleaves(acts, Own(j)[..4], j)
    ensures Content(Run(Run(Start(original), before), acts + [Rename(j.r)]), j.path) == Some(j.acked + j.chunk)
  {
    var s := Run(Start(original), before);
    RunKeeps(original, before);
    Proceeds(s, acts, j, upload, 4);
    RenameReplaces(Run(s, acts), j, upload);
    assert (acts + [Rename(j.r)])[..|acts|] == acts;
  }

  /** A write or a rename that fails: the temporary file goes, no path changes, and the client is told. */
  lemma FailureCleansUp(s: State, r: nat, path: string)
    requires Inv(s) && r in s.handlers && (s.handlers[r].stage.Writing? || s.handlers[r].stage.Renaming?)
    ensures var h, s' := s.handlers[r], Act(Act(s, WriteFails(r)), Remove(r));
            && s'.temps == s.temps - {h.temp} && Content(s', path) == Content(s, path)
            && r in s'.handlers && s'.handlers[r].stage == Replied(false)
    ensures Act(s, RenameFails(r)) == Act(s, WriteFails(r))
  {
  }

  lemma FailureIsTold(s: State, r: nat, c: nat)
    requires c in s.clients && s.clients[c].phase.Awaiting? && s.clients[c].req == r
    requires r in s.handlers && s.handlers[r].client == c && s.handlers[r].stage == Replied(false)
    ensures c in Act(s, Deliver(r)).clients && Act(s, Deliver(r)).clients[c].phase == Stopped(false)
  {
  }
}
