/** What a run of the upload protocol says about its outcome: which rename to a path was the last, who was told of
    success, and what each client sent (agent/internal/actions/fs.go, hub/icsd_hub/backups.py).
 */
module UploadHistory {
  import opened Common
  import opened Upload

  // ----- The last rename decides -----

  /** Handler `r` is about to rename and its temporary file is still linked. */
  predicate CanRename(s: State, r: nat) {
    r in s.handlers && s.handlers[r].stage.Renaming? && s.handlers[r].temp in s.temps
  }

  /** In state `s`, `a` puts the file of client `c` over `path`. */
  predicate Renames(s: State, a: Action, path: string, c: nat) {
    a.Rename? && CanRename(s, a.r) && s.handlers[a.r].path == path && s.handlers[a.r].client == c
  }

  /** The client whose file was renamed over `path` last, read off the run. */
  function LastRename(start: State, acts: seq<Action>, path: string): Option<nat> {
    if acts == [] then None
    else
      var s, a := Run(start, acts[..|acts| - 1]), acts[|acts| - 1];
      if a.Rename? && CanRename(s, a.r) && s.handlers[a.r].path == path then Some(s.handlers[a.r].client)
      else LastRename(start, acts[..|acts| - 1], path)
  }

  function OwnerOf(s: State, path: string): Option<nat> {
    if path in s.target && s.target[path] in s.owner then Some(s.owner[s.target[path]]) else None
  }

  /** No action but a rename changes which client's file is at a path. */
  lemma ActOwner(s: State, a: Action, path: string)
    requires Inv(s)
    ensures OwnerOf(Act(s, a), path) ==
            if a.Rename? && CanRename(s, a.r) && s.handlers[a.r].path == path then Some(s.handlers[a.r].client)
            else OwnerOf(s, path)
  {
    assert TargetOk(s, path);
    if a.Rename? && CanRename(s, a.r) {
      assert HandlerOk(s, a.r);
    }
  }

  lemma {:induction false} OwnerIsLastRename(original: map<string, Bytes>, acts: seq<Action>, path: string)
    ensures OwnerOf(Run(Start(original), acts), path) == LastRename(Start(original), acts, path)
  {
    if acts == [] {
    } else {
      var init := acts[..|acts| - 1];
      OwnerIsLastRename(original, init, path);
      RunKeeps(original, init);
      ActOwner(Run(Start(original), init), acts[|acts| - 1], path);
    }
  }

  /** Exactly what a target holds after any run: the whole data of the client whose rename to it was the last
      one, and its original bytes if there was none. */
  lemma TargetIsLastRename(original: map<string, Bytes>, acts: seq<Action>, path: string)
    ensures var s := Run(Start(original), acts);
            match LastRename(Start(original), acts, path)
            case None => Content(s, path) == if path in original then Some(original[path]) else None
            case Some(c) => && c in s.clients && s.clients[c].path == path && s.clients[c].finalSent
                            && Content(s, path) == Some(Whole(s.clients[c]))
  {
    RunKeeps(original, acts);
    OwnerIsLastRename(original, acts, path);
    assert TargetOk(Run(Start(original), acts), path);
  }

  /** The `i`-th action put the file of client `c` over `path`. */
  predicate RenamedAt(start: State, acts: seq<Action>, i: nat, path: string, c: nat) {
    i < |acts| && Renames(Run(start, acts[..i]), acts[i], path, c)
  }

  ghost predicate Renamed(start: State, acts: seq<Action>, path: string, c: nat) {
    exists i :: RenamedAt(start, acts, i, path, c)
  }

  lemma RenamedMore(start: State, acts: seq<Action>, a: Action, path: string, c: nat)
    ensures Renamed(start, acts, path, c) ==> Renamed(start, acts + [a], path, c)
    ensures Renames(Run(start, acts), a, path, c) ==> Renamed(start, acts + [a], path, c)
  {
    if i: nat :| RenamedAt(start, acts, i, path, c) {
      assert (acts + [a])[..i] == acts[..i];
      assert RenamedAt(start, acts + [a], i, path, c);
    }
    if Renames(Run(start, acts), a, path, c) {
      assert (acts + [a])[..|acts|] == acts;
      assert RenamedAt(start, acts + [a], |acts|, path, c);
    }
  }

  /** Client `c` was told of success, or is about to be. */
  predicate Succeeds(s: State, c: nat, r: nat) {
    c in s.clients &&
    (s.clients[c].phase == Stopped(true) ||
     (r in s.handlers && s.handlers[r].client == c && s.handlers[r].final && s.handlers[r].stage == Replied(true)))
  }

  /** A client learns of success from its own handler. */
  lemma ToldOfSuccess(s: State, a: Action, c: nat)
    requires Inv(s) && c in Act(s, a).clients && Act(s, a).clients[c].phase == Stopped(true)
    ensures c in s.clients && s.clients[c].path == Act(s, a).clients[c].path
    ensures Succeeds(s, c, if a.Deliver? then a.r else 0)
  {
    if a.Deliver? {
      assert HandlerOk(s, a.r);
    } else if a.Begin? || a.Send? || a.GiveUp? {
    } else {
      ClientsUnchanged(s, a);
    }
  }

  /** If handler `r` of `s'` answers success to a last chunk, it already did in `s`, or `a` is its rename. */
  predicate Answers(s: State, s': State, a: Action, r: nat) {
    r in s'.handlers && s'.handlers[r].final && s'.handlers[r].stage == Replied(true) ==>
      && r in s.handlers && s.handlers[r].client == s'.handlers[r].client
      && (s.handlers[r] == s'.handlers[r] || Renames(s, a, s.handlers[r].path, s.handlers[r].client))
  }

  lemma SendAnswers(s: State, r: nat, c: nat, chunk: Bytes, final: bool, q: nat)
    requires HandlerOk(s, q)
    ensures Answers(s, DoSend(s, c, r, chunk, final), Send(c, r, chunk, final), q)
  {
  }

  lemma OpenAnswers(s: State, r: nat, name: nat, q: nat)
    requires HandlerOk(s, q)
    ensures Answers(s, DoOpen(s, r, name), Open(r, name), q)
  {
  }

  lemma WriteAnswers(s: State, r: nat, n: nat, q: nat)
    requires HandlerOk(s, q)
    ensures Answers(s, DoWrite(s, r, n), Write(r, n), q)
  {
  }

  lemma FinishAnswers(s: State, r: nat, q: nat)
    requires HandlerOk(s, q)
    ensures Answers(s, DoFinish(s, r), Finish(r), q)
  {
  }

  lemma RenameAnswers(s: State, r: nat, q: nat)
    requires HandlerOk(s, q)
    ensures Answers(s, DoRename(s, r), Rename(r), q)
  {
  }

  lemma FailAnswers(s: State, r: nat, a: Action, q: nat)
    requires HandlerOk(s, q)
    ensures Answers(s, DoFail(s, r), a, q)
  {
  }

  lemma RemoveAnswers(s: State, r: nat, q: nat)
    requires HandlerOk(s, q)
    ensures Answers(s, DoRemove(s, r), Remove(r), q)
  {
  }

  lemma DeliverAnswers(s: State, r: nat, q: nat)
    requires HandlerOk(s, q)
    ensures Answers(s, DoDeliver(s, r), Deliver(r), q)
  {
  }

  lemma ActAnswers(s: State, a: Action, q: nat)
    requires HandlerOk(s, q)
    ensures Answers(s, Act(s, a), a, q)
  {
    match a
    case Begin(_, _) =>
    case Send(c, r, chunk, final) => SendAnswers(s, r, c, chunk, final, q);
    case Open(r, name) => OpenAnswers(s, r, name, q);
    case Write(r, n) => WriteAnswers(s, r, n, q);
    case WriteFails(r) => FailAnswers(s, r, a, q);
    case Finish(r) => FinishAnswers(s, r, q);
    case Rename(r) => RenameAnswers(s, r, q);
    case RenameFails(r) => FailAnswers(s, r, a, q);
    case Remove(r) => RemoveAnswers(s, r, q);
    case Die(_) =>
    case Deliver(r) => DeliverAnswers(s, r, q);
    case GiveUp(_) =>
    case Unlink(_) =>
  }

  /** Success has one source: the client's own rename. */
  lemma ActSucceeds(s: State, a: Action, c: nat, r: nat) returns (q: nat)
    requires Inv(s) && Succeeds(Act(s, a), c, r)
    ensures c in s.clients && s.clients[c].path == Act(s, a).clients[c].path
    ensures Succeeds(s, c, q) || Renames(s, a, s.clients[c].path, c)
  {
    if Act(s, a).clients[c].phase == Stopped(true) {
      q := if a.Deliver? then a.r else 0;
      ToldOfSuccess(s, a, c);
    } else {
      q := r;
      assert HandlerOk(s, r);
      ActAnswers(s, a, r);
      PathKept(s, a, c);
    }
  }

  lemma PathKept(s: State, a: Action, c: nat)
    requires c in s.clients
    ensures c in Act(s, a).clients && Act(s, a).clients[c].path == s.clients[c].path
  {
    if !a.Begin? && !a.Send? && !a.Deliver? && !a.GiveUp? {
      ClientsUnchanged(s, a);
    }
  }

  lemma RunSucceeds(original: map<string, Bytes>, acts: seq<Action>, a: Action, c: nat, r: nat) returns (q: nat)
    requires Succeeds(Act(Run(Start(original), acts), a), c, r)
    ensures var s := Run(Start(original), acts);
            && c in s.clients && s.clients[c].path == Act(s, a).clients[c].path
            && (Succeeds(s, c, q) || Renames(s, a, s.clients[c].path, c))
  {
    RunKeeps(original, acts);
    q := ActSucceeds(Run(Start(original), acts), a, c, r);
  }

  lemma {:induction false} SuccessWasRenamed(original: map<string, Bytes>, acts: seq<Action>,
                                             now: State, c: nat, r: nat)
    requires now == Run(Start(original), acts) && Succeeds(now, c, r)
    ensures Renamed(Start(original), acts, now.clients[c].path, c)
  {
    if acts == [] {
    } else {
      var init, a := acts[..|acts| - 1], acts[|acts| - 1];
      var s := Run(Start(original), init);
      var q := RunSucceeds(original, init, a, c, r);
      if Succeeds(s, c, q) {
        SuccessWasRenamed(original, init, s, c, q);
      }
      RenamedMore(Start(original), init, a, s.clients[c].path, c);
      assert acts == init + [a];
    }
  }

  /** With no later rename to the path, the rename at `i` is the last. */
  lemma {:induction false} NoneLater(start: State, acts: seq<Action>, i: nat, path: string, c: nat)
    requires RenamedAt(start, acts, i, path, c)
    requires forall j: nat, d :: i < j ==> !RenamedAt(start, acts, j, path, d)
    ensures LastRename(start, acts, path) == Some(c)
  {
    var init := acts[..|acts| - 1];
    if i == |acts| - 1 {
    } else {
      assert !RenamedAt(start, acts, |acts| - 1, path, LastClient(start, acts));
      forall j: nat, d | i <= j < |init|
        ensures RenamedAt(start, init, j, path, d) == RenamedAt(start, acts, j, path, d) {
        assert init[..j] == acts[..j];
      }
      NoneLater(start, init, i, path, c);
    }
  }

  /** The client of the handler the last action names. */
  function LastClient(start: State, acts: seq<Action>): nat
    requires acts != []
  {
    var s, a := Run(start, acts[..|acts| - 1]), acts[|acts| - 1];
    if a.Rename? && a.r in s.handlers then s.handlers[a.r].client else 0
  }

  /** A client that was told its upload succeeded did rename its file over its path, at some action `i`; if no
      file was renamed over that path later, whatever went on before, the path holds exactly its data. */
  lemma SuccessLeavesItsData(original: map<string, Bytes>, acts: seq<Action>, c: nat) returns (i: nat)
    requires var s := Run(Start(original), acts); c in s.clients && s.clients[c].phase == Stopped(true)
    ensures var s := Run(Start(original), acts);
            var path := s.clients[c].path;
            && RenamedAt(Start(original), acts, i, path, c)
            && ((forall j: nat, d :: i < j ==> !RenamedAt(Start(original), acts, j, path, d)) ==>
                  Content(s, path) == Some(Whole(s.clients[c])))
  {
    var path := Run(Start(original), acts).clients[c].path;
    SuccessWasRenamed(original, acts, Run(Start(original), acts), c, 0);
    i :| RenamedAt(Start(original), acts, i, path, c);
    if forall j: nat, d :: i < j ==> !RenamedAt(Start(original), acts, j, path, d) {
      NoneLater(Start(original), acts, i, path, c);
      TargetIsLastRename(original, acts, path);
    }
  }

  /** In particular when no other client of the path has sent its last chunk. */
  lemma AloneLeavesItsData(original: map<string, Bytes>, acts: seq<Action>, c: nat)
    requires var s := Run(Start(original), acts);
             c in s.clients && s.clients[c].phase == Stopped(true) &&
             forall d :: d in s.clients && d != c && s.clients[d].path == s.clients[c].path ==> !s.clients[d].finalSent
    ensures var s := Run(Start(original), acts); Content(s, s.clients[c].path) == Some(Whole(s.clients[c]))
  {
    var path := Run(Start(original), acts).clients[c].path;
    var i := SuccessLeavesItsData(original, acts, c);
    TargetIsLastRename(original, acts, path);
    LastRenameSome(Start(original), acts, i, path, c);
  }

  lemma {:induction false} LastRenameSome(start: State, acts: seq<Action>, i: nat, path: string, c: nat)
    requires RenamedAt(start, acts, i, path, c)
    ensures LastRename(start, acts, path).Some?
  {
    if i == |acts| - 1 {
    } else {
      var init := acts[..|acts| - 1];
      assert init[..i] == acts[..i];
      LastRenameSome(start, init, i, path, c);
    }
  }

  // ----- What a client sent -----

  function Concat(chunks: seq<Bytes>): Bytes {
    if chunks == [] then [] else Concat(chunks[..|chunks| - 1]) + chunks[|chunks| - 1]
  }

  /** The chunks client `c` sent, in order: every `Send` that it was free to make. */
  function SentBy(start: State, acts: seq<Action>, c: nat): seq<Bytes> {
    if acts == [] then []
    else
      var s, a := Run(start, acts[..|acts| - 1]), acts[|acts| - 1];
      var before := SentBy(start, acts[..|acts| - 1], c);
      if a.Send? && a.c == c && DoSend(s, c, a.r, a.chunk, a.final) != s then before + [a.chunk] else before
  }

  ghost predicate SentOk(s: State, c: nat, chunks: seq<Bytes>) {
    if c in s.clients
    then Concat(chunks) == Whole(s.clients[c]) && (s.clients[c].phase.Ready? ==> s.clients[c].last == [])
    else chunks == []
  }

  lemma SendSent(s: State, c: nat, r: nat, chunk: Bytes, final: bool, x: nat, chunks: seq<Bytes>)
    requires SentOk(s, x, chunks)
    ensures var s' := DoSend(s, c, r, chunk, final);
            SentOk(s', x, if c == x && s' != s then chunks + [chunk] else chunks)
  {
    if c == x && DoSend(s, c, r, chunk, final) != s {
      assert (chunks + [chunk])[..|chunks|] == chunks;
      assert s.clients[c].acked + [] == s.clients[c].acked;
    }
  }

  lemma DeliverSent(s: State, r: nat, c: nat, chunks: seq<Bytes>)
    requires SentOk(s, c, chunks)
    ensures SentOk(DoDeliver(s, r), c, chunks)
  {
    if c in s.clients {
      assert Whole(s.clients[c]) + [] == Whole(s.clients[c]);
    }
  }

  lemma ActSent(s: State, a: Action, c: nat, chunks: seq<Bytes>)
    requires SentOk(s, c, chunks)
    ensures var sends := a.Send? && a.c == c && DoSend(s, c, a.r, a.chunk, a.final) != s;
            SentOk(Act(s, a), c, if sends then chunks + [a.chunk] else chunks)
  {
    if a.Send? {
      SendSent(s, a.c, a.r, a.chunk, a.final, c, chunks);
    } else if a.Deliver? {
      DeliverSent(s, a.r, c, chunks);
    } else if !a.Begin? && !a.GiveUp? {
      ClientsUnchanged(s, a);
    }
  }

  /** The data of a client is what it sent. */
  lemma {:induction false} SentIsWhole(original: map<string, Bytes>, acts: seq<Action>, c: nat)
    ensures SentOk(Run(Start(original), acts), c, SentBy(Start(original), acts, c))
  {
    if acts == [] {
    } else {
      var init := acts[..|acts| - 1];
      SentIsWhole(original, init, c);
      ActSent(Run(Start(original), init), acts[|acts| - 1], c, SentBy(Start(original), init, c));
    }
  }
}
