/** The chunked upload protocol between hub clients and the agent's `fs.write` / `fs.abort`
    (agent/internal/actions/fs.go, hub/icsd_hub/backups.py, hub/icsd_hub/manage.py).

    Any number of clients upload at the same time.  A client sends one chunk, waits for its answer and
    only then sends the next.  Each request is handled on its own goroutine, so handlers interleave at
    every file-system call; requests and answers may be late or lost, a write may fail half way, the
    agent may die, and an unfinished temporary file may be removed by anyone at any time.

    A temporary file is written through an open descriptor, so its bytes are kept per inode (`bytes`),
    apart from the names: `temps` are the temporary names still linked, `target` maps a target path to
    the inode renamed over it.  Temporary names are random and taken to be fresh.
 */
module Upload {
  import opened Common

  /** What a client is doing: free to send, waiting for an answer, or finished. */
  datatype Phase = Ready | Awaiting | Stopped(ok: bool)

  /** `acked` is all data answered for, `last` the chunk of the latest request. */
  datatype Client = Client(path: string, acked: Bytes, last: Bytes, finalSent: bool, upload: Option<nat>,
                           req: nat, phase: Phase)

  datatype Stage = Opening | Writing(done: nat) | Renaming | Removing | Replied(ok: bool)

  datatype Handler = Handler(client: nat, path: string, data: Bytes, offset: nat, final: bool, upload: Option<nat>,
                             stage: Stage, temp: nat)

  datatype State = State(original: map<string, Bytes>, target: map<string, nat>, temps: set<nat>,
                         bytes: map<nat, Bytes>, owner: map<nat, nat>,
                         clients: map<nat, Client>, handlers: map<nat, Handler>, requests: set<nat>)

  function Start(original: map<string, Bytes>): State {
    State(original, map[], {}, map[], map[], map[], map[], {})
  }

  /** The bytes a reader of `path` sees. */
  function Content(s: State, path: string): Option<Bytes> {
    if path in s.target && s.target[path] in s.bytes then Some(s.bytes[s.target[path]])
    else if path in s.original then Some(s.original[path])
    else None
  }

  /** The whole data of a client that has sent its final chunk. */
  function Whole(c: Client): Bytes {
    c.acked + c.last
  }

  /** `WriteAt`: overwrites and extends, filling a gap with zeros. */
  function WriteAt(was: Bytes, offset: nat, data: Bytes): Bytes {
    if offset >= |was| then was + seq(offset - |was|, _ => 0) + data
    else if offset + |data| >= |was| then was[..offset] + data
    else was[..offset] + data + was[offset + |data|..]
  }

  datatype Action =
    | Begin(c: nat, path: string)                  // a client starts
    | Send(c: nat, r: nat, chunk: Bytes, final: bool)
    | Open(r: nat, name: nat)                     // CreateTemp or openUpload
    | Write(r: nat, n: nat)                        // some bytes reach the file
    | WriteFails(r: nat)
    | Finish(r: nat)                               // all bytes written: answer, or go on to rename
    | Rename(r: nat)
    | RenameFails(r: nat)
    | Remove(r: nat)                               // clean-up after a failed write or rename
    | Die(r: nat)                                  // request or answer lost, agent killed
    | Deliver(r: nat)                              // the answer reaches its client
    | GiveUp(c: nat)                               // timeout, hub crash
    | Unlink(n: nat)                               // fs.abort or the reclaiming of stale uploads

  function Put(s: State, r: nat, h: Handler, stage: Stage): State {
    s.(handlers := s.handlers[r := h.(stage := stage)])
  }

  function DoSend(s: State, c: nat, r: nat, chunk: Bytes, final: bool): State {
    if c in s.clients && s.clients[c].phase.Ready? && r !in s.requests && (!final ==> chunk != []) then
      var k := s.clients[c];
      s.(clients := s.clients[c := k.(last := chunk, finalSent := final, req := r, phase := Awaiting)],
         handlers := s.handlers[r := Handler(c, k.path, chunk, |k.acked|, final, k.upload, Opening, 0)],
         requests := s.requests + {r})
    else s
  }

  function DoOpen(s: State, r: nat, name: nat): State {
    if r in s.handlers && s.handlers[r].stage.Opening? then
      var h := s.handlers[r];
      if h.offset == 0 then
        if name in s.owner then s
        else Put(s, r, h.(temp := name), Writing(0)).(temps := s.temps + {name},
                                                       bytes := s.bytes[name := []], owner := s.owner[name := h.client])
      else if h.upload.Some? && h.upload.value in s.temps then
        Put(s, r, h.(temp := h.upload.value), Writing(0))
      else
        Put(s, r, h, Replied(false))
    else s
  }

  function DoWrite(s: State, r: nat, n: nat): State {
    if r in s.handlers && s.handlers[r].stage.Writing? && s.handlers[r].temp in s.bytes
       && s.handlers[r].stage.done + n <= |s.handlers[r].data| then
      var h := s.handlers[r];
      var d := h.stage.done;
      Put(s, r, h, Writing(d + n)).(bytes := s.bytes[h.temp := WriteAt(s.bytes[h.temp],
                                                  h.offset + d, h.data[d..d + n])])
    else s
  }

  function DoFinish(s: State, r: nat): State {
    if r in s.handlers && s.handlers[r].stage == Writing(|s.handlers[r].data|) then
      Put(s, r, s.handlers[r], if s.handlers[r].final then Renaming else Replied(true))
    else s
  }

  function DoRename(s: State, r: nat): State {
    if r in s.handlers && s.handlers[r].stage.Renaming? then
      var h := s.handlers[r];
      if h.temp in s.temps then
        Put(s, r, h, Replied(true)).(temps := s.temps - {h.temp}, target := s.target[h.path := h.temp])
      else Put(s, r, h, Removing)
    else s
  }

  function DoFail(s: State, r: nat): State {
    if r in s.handlers && (s.handlers[r].stage.Writing? || s.handlers[r].stage.Renaming?)
    then Put(s, r, s.handlers[r], Removing)
    else s
  }

  function DoRemove(s: State, r: nat): State {
    if r in s.handlers && s.handlers[r].stage.Removing?
    then Put(s, r, s.handlers[r], Replied(false)).(temps := s.temps - {s.handlers[r].temp})
    else s
  }

  function DoDie(s: State, r: nat): State {
    s.(handlers := s.handlers - {r})
  }

  function DoDeliver(s: State, r: nat): State {
    if r in s.handlers && s.handlers[r].stage.Replied? then
      var h := s.handlers[r];
      var s1 := DoDie(s, r);
      if h.client in s.clients && s.clients[h.client].phase.Awaiting? && s.clients[h.client].req == r then
        var k := s.clients[h.client];
        var k' := if !h.stage.ok then k.(phase := Stopped(false))
                  else if h.final then k.(phase := Stopped(true))
                  else k.(acked := k.acked + k.last, last := [], upload := Some(h.temp), phase := Ready);
        s1.(clients := s.clients[h.client := k'])
      else s1
    else s
  }

  function DoGiveUp(s: State, c: nat): State {
    if c in s.clients && !s.clients[c].phase.Stopped?
    then s.(clients := s.clients[c := s.clients[c].(phase := Stopped(false))])
    else s
  }

  function Act(s: State, a: Action): (s': State)
    ensures s'.original == s.original
  {
    match a
    case Begin(c, path) =>
      if c in s.clients then s else s.(clients := s.clients[c := Client(path, [], [], false, None, 0, Ready)])
    case Send(c, r, chunk, final) => DoSend(s, c, r, chunk, final)
    case Open(r, name) => DoOpen(s, r, name)
    case Write(r, n) => DoWrite(s, r, n)
    case WriteFails(r) => DoFail(s, r)
    case Finish(r) => DoFinish(s, r)
    case Rename(r) => DoRename(s, r)
    case RenameFails(r) => DoFail(s, r)
    case Remove(r) => DoRemove(s, r)
    case Die(r) => DoDie(s, r)
    case Deliver(r) => DoDeliver(s, r)
    case GiveUp(c) => DoGiveUp(s, c)
    case Unlink(n) => s.(temps := s.temps - {n})
  }

  function Run(s: State, acts: seq<Action>): State {
    if acts == [] then s else Act(Run(s, acts[..|acts| - 1]), acts[|acts| - 1])
  }

  // ----- The invariant -----

  /** Inode `n` belongs to client `c` and is not visible under any target. */
  ghost predicate Private(s: State, n: nat, c: nat) {
    n in s.owner && s.owner[n] == c && n in s.bytes && forall p :: p in s.target ==> s.target[p] != n
  }

  ghost predicate ClientOk(s: State, c: nat) {
    c in s.clients ==>
      var k := s.clients[c];
      && (k.phase.Ready? ==>
            && (k.acked == [] || (k.upload.Some? && Private(s, k.upload.value, c)
                                   && s.bytes[k.upload.value] == k.acked))
            && forall r :: r in s.handlers ==> s.handlers[r].client != c)
      && (k.phase == Stopped(true) ==> k.finalSent && k.path in s.target)
  }

  ghost predicate HandlerOk(s: State, r: nat) {
    r in s.handlers ==>
      var h := s.handlers[r];
      && r in s.requests && h.client in s.clients
      && var k := s.clients[h.client];
         && k.req == r && !k.phase.Ready? && h.path == k.path && h.data == k.last
         && h.offset == |k.acked| && h.final == k.finalSent
         && (!h.final ==> h.data != [])
         && match h.stage
            case Opening => h.offset == 0 || (h.upload.Some? && Private(s, h.upload.value, h.client)
                                              && s.bytes[h.upload.value] == k.acked)
            case Writing(done) => done <= |h.data| && Private(s, h.temp, h.client)
                                  && s.bytes[h.temp] == k.acked + h.data[..done]
            case Renaming => h.final && Private(s, h.temp, h.client) && s.bytes[h.temp] == Whole(k)
            case Removing => Private(s, h.temp, h.client)
            case Replied(ok) =>
              ok ==> if h.final then k.path in s.target
                     else Private(s, h.temp, h.client) && s.bytes[h.temp] == Whole(k)
  }

  /** A visible inode holds the whole data of a client that sent its final chunk and will not write again. */
  ghost predicate TargetOk(s: State, p: string) {
    p in s.target ==>
      var n := s.target[p];
      && n in s.owner && n in s.bytes && s.owner[n] in s.clients
      && var k := s.clients[s.owner[n]];
         && k.path == p && k.finalSent && !k.phase.Ready? && k.req in s.requests && s.bytes[n] == Whole(k)
         && (k.req in s.handlers ==> s.handlers[k.req].stage.Replied?)
  }

  ghost predicate Names(s: State) {
    s.bytes.Keys == s.owner.Keys && s.temps <= s.owner.Keys &&
    forall n :: n in s.owner ==> s.owner[n] in s.clients
  }

  ghost predicate Inv(s: State) {
    && (forall c :: ClientOk(s, c))
    && (forall r :: HandlerOk(s, r))
    && (forall p :: TargetOk(s, p))
    && Names(s)
  }

  // ----- Every action keeps it -----

  lemma BeginKeeps(s: State, c: nat, path: string)
    requires Inv(s)
    ensures Inv(Act(s, Begin(c, path)))
  {
    var s' := Act(s, Begin(c, path));
    forall x ensures ClientOk(s', x) {
      assert ClientOk(s, x);
      forall r | r in s'.handlers ensures c in s.clients || s'.handlers[r].client != c { assert HandlerOk(s, r); }
    }
    forall r ensures HandlerOk(s', r) { assert HandlerOk(s, r); }
    forall p ensures TargetOk(s', p) { assert TargetOk(s, p); }
  }

  lemma SendKeeps(s: State, c: nat, r: nat, chunk: Bytes, final: bool)
    requires Inv(s)
    ensures Inv(DoSend(s, c, r, chunk, final))
  {
    var s' := DoSend(s, c, r, chunk, final);
    if s' != s {
      assert ClientOk(s, c) && HandlerOk(s, r);
      forall x ensures ClientOk(s', x) { assert ClientOk(s, x); }
      forall q ensures HandlerOk(s', q) { assert HandlerOk(s, q); }
      forall p ensures TargetOk(s', p) { assert TargetOk(s, p); }
    }
  }

  /** Changing one handler, without touching files or clients. */
  lemma StageKeeps(s: State, r: nat, h: Handler)
    requires Inv(s) && r in s.handlers && h.client == s.handlers[r].client
    requires s.handlers[r].stage.Replied? ==> h.stage.Replied?
    requires HandlerOk(s.(handlers := s.handlers[r := h]), r)
    ensures Inv(s.(handlers := s.handlers[r := h]))
  {
    var s' := s.(handlers := s.handlers[r := h]);
    forall x ensures ClientOk(s', x) { assert ClientOk(s, x); }
    forall q ensures HandlerOk(s', q) { assert HandlerOk(s, q); }
    forall p ensures TargetOk(s', p) { assert TargetOk(s, p); }
  }

  lemma OpenKeeps(s: State, r: nat, name: nat)
    requires Inv(s)
    ensures Inv(DoOpen(s, r, name))
  {
    if r in s.handlers && s.handlers[r].stage.Opening? {
      assert HandlerOk(s, r);
      var h := s.handlers[r];
      if h.offset > 0 {
        if h.upload.Some? && h.upload.value in s.temps {
          StageKeeps(s, r, h.(temp := h.upload.value, stage := Writing(0)));
        } else {
          StageKeeps(s, r, h.(stage := Replied(false)));
        }
      } else if name !in s.owner {
        var s1 := s.(temps := s.temps + {name}, bytes := s.bytes[name := []], owner := s.owner[name := h.client]);
        assert name !in s.bytes;
        forall x ensures ClientOk(s1, x) { assert ClientOk(s, x); }
        forall q ensures HandlerOk(s1, q) { assert HandlerOk(s, q); }
        forall p ensures TargetOk(s1, p) { assert TargetOk(s, p); }
        forall p | p in s.target ensures s.target[p] != name { assert TargetOk(s, p); }
        assert s1.clients[h.client].acked == [];
        StageKeeps(s1, r, h.(temp := name, stage := Writing(0)));
      }
    }
  }

  /** Bytes written where the last ones ended extend the file. */
  lemma WroteMore(acked: Bytes, data: Bytes, d: nat, n: nat)
    requires d + n <= |data|
    ensures WriteAt(acked + data[..d], |acked| + d, data[d..d + n]) == acked + data[..d + n]
  {
    assert data[..d] + data[d..d + n] == data[..d + n];
  }

  lemma WriteKeeps(s: State, r: nat, n: nat)
    requires Inv(s)
    ensures Inv(DoWrite(s, r, n))
  {
    var s' := DoWrite(s, r, n);
    if s' != s {
      assert HandlerOk(s, r);
      var h := s.handlers[r];
      var d := h.stage.done;
      var k := s.clients[h.client];
      WroteMore(k.acked, h.data, d, n);
      forall x ensures ClientOk(s', x) { assert ClientOk(s, x); }
      forall q ensures HandlerOk(s', q) { assert HandlerOk(s, q); }
      forall p ensures TargetOk(s', p) { assert TargetOk(s, p); }
    }
  }

  lemma RenameKeeps(s: State, r: nat)
    requires Inv(s)
    ensures Inv(DoRename(s, r))
  {
    if r in s.handlers && s.handlers[r].stage.Renaming? {
      assert HandlerOk(s, r);
      var h := s.handlers[r];
      if h.temp !in s.temps {
        StageKeeps(s, r, h.(stage := Removing));
      } else {
        var s' := DoRename(s, r);
        forall x ensures ClientOk(s', x) { assert ClientOk(s, x); }
        forall q ensures HandlerOk(s', q) { assert HandlerOk(s, q); }
        forall p ensures TargetOk(s', p) { assert TargetOk(s, p); }
      }
    }
  }

  lemma UnlinkKeeps(s: State, n: nat)
    requires Inv(s)
    ensures Inv(s.(temps := s.temps - {n}))
  {
    var s' := s.(temps := s.temps - {n});
    forall x ensures ClientOk(s', x) { assert ClientOk(s, x); }
    forall q ensures HandlerOk(s', q) { assert HandlerOk(s, q); }
    forall p ensures TargetOk(s', p) { assert TargetOk(s, p); }
  }

  lemma DieKeeps(s: State, r: nat)
    requires Inv(s)
    ensures Inv(DoDie(s, r))
  {
    var s' := DoDie(s, r);
    forall x ensures ClientOk(s', x) { assert ClientOk(s, x); }
    forall q ensures HandlerOk(s', q) { assert HandlerOk(s, q); }
    forall p ensures TargetOk(s', p) { assert TargetOk(s, p); }
  }

  lemma DeliverKeeps(s: State, r: nat)
    requires Inv(s)
    ensures Inv(DoDeliver(s, r))
  {
    if r in s.handlers && s.handlers[r].stage.Replied? {
      assert HandlerOk(s, r);
      DieKeeps(s, r);
      var s1, s' := DoDie(s, r), DoDeliver(s, r);
      if s' != s1 {
        assert ClientOk(s, s.handlers[r].client);
        forall x ensures ClientOk(s', x) {
          assert ClientOk(s1, x);
          forall q | q in s'.handlers ensures s'.handlers[q].client != s.handlers[r].client { assert HandlerOk(s, q); }
        }
        forall q ensures HandlerOk(s', q) { assert HandlerOk(s, q); assert HandlerOk(s1, q); }
        forall p ensures TargetOk(s', p) { assert TargetOk(s1, p); }
      }
    }
  }

  lemma GiveUpKeeps(s: State, c: nat)
    requires Inv(s)
    ensures Inv(DoGiveUp(s, c))
  {
    var s' := DoGiveUp(s, c);
    forall x ensures ClientOk(s', x) { assert ClientOk(s, x); }
    forall q ensures HandlerOk(s', q) { assert HandlerOk(s, q); }
    forall p ensures TargetOk(s', p) { assert TargetOk(s, p); }
  }

  lemma ActKeeps(s: State, a: Action)
    requires Inv(s)
    ensures Inv(Act(s, a))
  {
    match a
    case Begin(c, path) => BeginKeeps(s, c, path);
    case Send(c, r, chunk, final) => SendKeeps(s, c, r, chunk, final);
    case Open(r, name) => OpenKeeps(s, r, name);
    case Write(r, n) => WriteKeeps(s, r, n);
    case Rename(r) => RenameKeeps(s, r);
    case Finish(r) =>
      if r in s.handlers && s.handlers[r].stage == Writing(|s.handlers[r].data|) {
        assert HandlerOk(s, r);
        var h := s.handlers[r];
        assert h.data[..|h.data|] == h.data;
        StageKeeps(s, r, h.(stage := if h.final then Renaming else Replied(true)));
      }
    case Remove(r) =>
      if r in s.handlers && s.handlers[r].stage.Removing? {
        var h := s.handlers[r];
        UnlinkKeeps(s, h.temp);
        var s1 := s.(temps := s.temps - {h.temp});
        assert HandlerOk(s1, r);
        StageKeeps(s1, r, h.(stage := Replied(false)));
      }
    case Die(r) => DieKeeps(s, r);
    case Deliver(r) => DeliverKeeps(s, r);
    case GiveUp(c) => GiveUpKeeps(s, c);
    case Unlink(n) => UnlinkKeeps(s, n);
    case WriteFails(r) => FailKeeps(s, r);
    case RenameFails(r) => FailKeeps(s, r);
  }

  lemma FailKeeps(s: State, r: nat)
    requires Inv(s)
    ensures Inv(DoFail(s, r))
  {
    if DoFail(s, r) != s {
      assert HandlerOk(s, r);
      StageKeeps(s, r, s.handlers[r].(stage := Removing));
    }
  }

  lemma {:induction false} RunKeeps(original: map<string, Bytes>, acts: seq<Action>)
    ensures Inv(Run(Start(original), acts)) && Run(Start(original), acts).original == original
  {
    if acts == [] {
    } else {
      RunKeeps(original, acts[..|acts| - 1]);
      ActKeeps(Run(Start(original), acts[..|acts| - 1]), acts[|acts| - 1]);
    }
  }

  /** Only these actions touch a client. */
  lemma ClientsUnchanged(s: State, a: Action)
    requires !a.Begin? && !a.Send? && !a.Deliver? && !a.GiveUp?
    ensures Act(s, a).clients == s.clients
  {
  }

  // ----- Main results -----

  /** A target shows its original bytes or the whole data of one finished upload to it, at every moment. */
  lemma TargetIsAtomic(original: map<string, Bytes>, acts: seq<Action>, path: string)
    ensures var s := Run(Start(original), acts);
            || Content(s, path) == (if path in original then Some(original[path]) else None)
            || exists c :: c in s.clients && s.clients[c].path == path && s.clients[c].finalSent
                           && Content(s, path) == Some(Whole(s.clients[c]))
  {
    RunKeeps(original, acts);
    var s := Run(Start(original), acts);
    assert TargetOk(s, path);
    if path in s.target {
      var c := s.owner[s.target[path]];
      assert c in s.clients && Content(s, path) == Some(Whole(s.clients[c]));
    }
  }
}
