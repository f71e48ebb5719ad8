/** One run of a backup plan (hub/icsd_hub/backups.py, `_run`) from the moment its job is done.

    The hub asks, one request after the other: prune the source, copy the file to the destination,
    prune the destination, delete the local file.  A request that was sent may be carried out at any
    later time, once, also after the hub gave up on it or crashed; its answer may be lost.  Meanwhile
    other plans, and late requests of earlier runs, work in the same two directories.
 */
module Backup {
  import opened Common
  import opened Retention

  datatype Plan = Plan(prefix: string, keep: int, hasDest: bool, destKeep: int, deleteLocal: bool)

  /** What the API accepts (`PlanIn`, `_validate`) and the prefix `create` makes. */
  predicate LegalPlan(p: Plan) {
    '-' !in p.prefix && p.keep >= 1 && p.destKeep >= 1 && (p.deleteLocal ==> p.hasDest)
  }

  datatype Request =
    | Prune(keep: int)
    | Store(data: Bytes)          // the last chunk of the copy: the rename on the destination
    | PruneDest(keep: int)
    | DeleteLocal

  /** Where the run stands: the request it waits for, or its end. */
  datatype Stage = Pruning | Copying | PruningDest | Deleting | Ended(ok: bool)

  datatype State = State(src: map<string, Bytes>, dst: map<string, Bytes>, stage: Stage,
                         pending: set<Request>,    // sent and not yet carried out
                         done: set<Request>)       // carried out

  datatype Action =
    | CarryOut(r: Request, busy: set<string>)
    | Answer                                       // the awaited answer arrives
    | GiveUp                                       // error, timeout or hub crash
    | OtherPrune(onDest: bool, prefix: string, keep: int, busy: set<string>)
    | OtherFile(onDest: bool, prefix: string, time: Time, ext: string, data: Bytes)
    | OtherDelete(onDest: bool, name: string)

  /** The request a stage waits for. */
  predicate Awaited(p: Plan, stage: Stage, r: Request) {
    match stage
    case Pruning => r == Prune(p.keep)
    case Copying => r.Store?
    case PruningDest => r == PruneDest(p.destKeep)
    case Deleting => r == DeleteLocal
    case Ended(_) => false
  }

  ghost function Effect(s: State, p: Plan, name: string, r: Request, busy: set<string>): State {
    match r
    case Prune(keep) => s.(src := Pruned(s.src, p.prefix, keep, busy))
    case Store(data) => s.(dst := s.dst[name := data])
    case PruneDest(keep) => s.(dst := Pruned(s.dst, p.prefix, keep, busy))
    case DeleteLocal => s.(src := s.src - {name})
  }

  /** The request sent on entering a stage.  The copy reads the local file; without it the run fails. */
  function Enter(s: State, p: Plan, name: string, stage: Stage): State {
    match stage
    case Pruning => s.(stage := stage, pending := s.pending + {Prune(p.keep)})
    case Copying =>
      if name in s.src then s.(stage := stage, pending := s.pending + {Store(s.src[name])})
      else s.(stage := Ended(false))
    case PruningDest => s.(stage := stage, pending := s.pending + {PruneDest(p.destKeep)})
    case Deleting => s.(stage := stage, pending := s.pending + {DeleteLocal})
    case Ended(_) => s.(stage := stage)
  }

  function NextStage(p: Plan, stage: Stage): Stage {
    match stage
    case Pruning => if p.hasDest then Copying else Ended(true)
    case Copying => PruningDest
    case PruningDest => if p.deleteLocal then Deleting else Ended(true)
    case Deleting => Ended(true)
    case Ended(ok) => Ended(ok)
  }

  ghost function Act(s: State, p: Plan, name: string, a: Action): State {
    match a
    case CarryOut(r, busy) =>
      if r in s.pending then Effect(s, p, name, r, busy).(pending := s.pending - {r}, done := s.done + {r}) else s
    case Answer =>
      if exists r :: r in s.done && Awaited(p, s.stage, r) then Enter(s, p, name, NextStage(p, s.stage)) else s
    case GiveUp => if s.stage.Ended? then s else s.(stage := Ended(false))
    case OtherPrune(onDest, prefix, keep, busy) =>
      if onDest then s.(dst := Pruned(s.dst, prefix, keep, busy)) else s.(src := Pruned(s.src, prefix, keep, busy))
    case OtherFile(onDest, prefix, time, ext, data) =>
      var n := FileName(prefix, time, ext);
      if onDest then s.(dst := s.dst[n := data]) else s.(src := s.src[n := data])
    case OtherDelete(onDest, n) =>
      if onDest then s.(dst := s.dst - {n}) else s.(src := s.src - {n})
  }

  /** How many names of the plan sort after `name`. */
  ghost function Rank(files: map<string, Bytes>, p: Plan, name: string): nat {
    |Newer(files, p.prefix, name)|
  }

  /** What the rest of the system does while no newer backup of this plan is made: files that look like this
      plan's are its own and older (manual dumps and other plans write what they like under other names),
      prunes are of plans, whose prefixes have no dash, its own late prunes keep more than rank the new
      file, and only names other than the new one are deleted. */
  predicate Allowed(p: Plan, name: string, at: Time, a: nat, b: nat, act: Action) {
    match act
    case OtherPrune(onDest, prefix, keep, _) =>
      '-' !in prefix && (prefix == p.prefix && keep >= 1 ==> keep > if onDest then b else a)
    case OtherFile(_, prefix, time, ext, _) =>
      Matches(FileName(prefix, time, ext), p.prefix) ==>
        prefix == p.prefix && Retention.Valid(time) && Earlier(time, at)
    case OtherDelete(_, n) => n != name
    case _ => true
  }

  ghost predicate AllAllowed(s: State, p: Plan, name: string, at: Time, acts: seq<Action>) {
    forall i :: 0 <= i < |acts| ==> Allowed(p, name, at, Rank(s.src, p, name), Rank(s.dst, p, name), acts[i])
  }

  /** The job is done: the new file is on the source only, and the hub goes on with the run. */
  ghost predicate JobDone(s: State, p: Plan, at: Time, ext: string, data: Bytes) {
    && LegalPlan(p) && Retention.Valid(at)
    && Has(s.src, FileName(p.prefix, at, ext), data) && FileName(p.prefix, at, ext) !in s.dst
    && s.stage == Ended(false) && s.pending == {} && s.done == {}
  }

  ghost function Run(s: State, p: Plan, name: string, acts: seq<Action>): State {
    if acts == [] then Enter(s, p, name, Pruning)
    else Act(Run(s, p, name, acts[..|acts| - 1]), p, name, acts[|acts| - 1])
  }

  ghost predicate Has(files: map<string, Bytes>, name: string, data: Bytes) {
    name in files && files[name] == data
  }

  ghost predicate CopyExists(s: State, name: string, data: Bytes) {
    Has(s.src, name, data) || Has(s.dst, name, data)
  }

  /** Fewer than `keep` files of the plan are named later, where the new file must stay. */
  ghost predicate Safe(s: State, p: Plan, name: string) {
    Rank(s.src, p, name) < p.keep && (p.deleteLocal ==> Rank(s.dst, p, name) < p.destKeep)
  }

  // ----- The invariant -----

  predicate Deletes(s: State) {
    DeleteLocal in s.pending || DeleteLocal in s.done
  }

  predicate Stored(s: State) {
    exists r :: r in s.done && r.Store?
  }

  /** `a` and `b` bound the ranks of the new file on the two servers. */
  ghost predicate Inv(s: State, p: Plan, name: string, data: Bytes, a: nat, b: nat) {
    && Rank(s.src, p, name) <= a < p.keep && Rank(s.dst, p, name) <= b && (p.deleteLocal ==> b < p.destKeep)
    && (forall r :: r in s.pending || r in s.done ==>
          && (r.Store? ==> r.data == data)
          && (r.Prune? ==> r.keep == p.keep)
          && (r.PruneDest? ==> r.keep == p.destKeep))
    && (b < p.destKeep ==> (Stored(s) || s.stage.PruningDest? || s.stage.Deleting? ==> Has(s.dst, name, data)))
    && (Deletes(s) ==> p.deleteLocal && Has(s.dst, name, data) && (s.stage.Deleting? || s.stage.Ended?))
    && (!Deletes(s) ==> Has(s.src, name, data))
    && (s.stage == Ended(true) && p.hasDest && b < p.destKeep ==> Has(s.dst, name, data))
  }

  lemma OthersOlder(p: string, at: Time, ext: string, q: string, t: Time, e: string)
    requires '-' !in p && '-' !in q && Retention.Valid(at) && Retention.Valid(t) && (q == p ==> Earlier(t, at))
    ensures Matches(FileName(q, t, e), p) ==> !Less(FileName(p, at, ext), FileName(q, t, e))
    ensures FileName(q, t, e) != FileName(p, at, ext)
  {
    PrefixesDoNotMix(p, q, t, e);
    PrefixesDoNotMix(p, p, at, ext);
    if q == p {
      NamesSortByTime(p, t, at, e, ext);
      LessTotal(FileName(p, t, e), FileName(p, at, ext));
    }
  }

  /** A rank grows only with a file named later. */
  lemma RankShrinks(was: map<string, Bytes>, now: map<string, Bytes>, p: Plan, name: string)
    requires forall m :: m in now && Matches(m, p.prefix) && Less(name, m) ==> m in was
    ensures Rank(now, p, name) <= Rank(was, p, name)
  {
    SubsetSize(Newer(now, p.prefix, name), Newer(was, p.prefix, name));
  }

  lemma {:induction false} SubsetSize(x: set<string>, y: set<string>)
    requires x <= y
    ensures |x| <= |y|
  {
    assert y == x + (y - x);
  }

  /** A prune that keeps more than the rank keeps the file; one of another prefix never touches it. */
  lemma PruneSpares(files: map<string, Bytes>, p: Plan, name: string, data: Bytes,
                    prefix: string, keep: int, busy: set<string>)
    requires prefix == p.prefix && keep >= 1 ==> keep > Rank(files, p, name)
    requires prefix != p.prefix ==> !Matches(name, prefix)
    ensures Has(files, name, data) ==> Has(Pruned(files, prefix, keep, busy), name, data)
    ensures Rank(Pruned(files, prefix, keep, busy), p, name) <= Rank(files, p, name)
  {
    RankShrinks(files, Pruned(files, prefix, keep, busy), p, name);
  }

  lemma CarryOutKeeps(s: State, p: Plan, name: string, data: Bytes, a: nat, b: nat, r: Request, busy: set<string>)
    requires Inv(s, p, name, data, a, b)
    ensures Inv(Act(s, p, name, CarryOut(r, busy)), p, name, data, a, b)
  {
    if r in s.pending {
      LessTotal(name, name);
      match r
      case Prune(keep) => PruneSpares(s.src, p, name, data, p.prefix, keep, busy);
      case Store(d) => RankShrinks(s.dst, s.dst[name := d], p, name);
      case PruneDest(keep) =>
        if b < p.destKeep {
          PruneSpares(s.dst, p, name, data, p.prefix, keep, busy);
        } else {
          RankShrinks(s.dst, Pruned(s.dst, p.prefix, keep, busy), p, name);
        }
      case DeleteLocal => RankShrinks(s.src, s.src - {name}, p, name);
    }
  }

  lemma AnswerKeeps(s: State, p: Plan, name: string, data: Bytes, a: nat, b: nat)
    requires Inv(s, p, name, data, a, b) && LegalPlan(p)
    ensures Inv(Act(s, p, name, Answer), p, name, data, a, b)
  {
    if r :| r in s.done && Awaited(p, s.stage, r) {
      assert r.Store? ==> Stored(s);
    }
  }

  lemma OtherPruneKeeps(s: State, p: Plan, name: string, data: Bytes, a: nat, b: nat, onDest: bool, prefix: string,
                        keep: int, busy: set<string>)
    requires Inv(s, p, name, data, a, b)
    requires prefix == p.prefix && keep >= 1 ==> keep > if onDest then b else a
    requires prefix != p.prefix ==> !Matches(name, prefix)
    ensures Inv(Act(s, p, name, OtherPrune(onDest, prefix, keep, busy)), p, name, data, a, b)
  {
    PruneSpares(if onDest then s.dst else s.src, p, name, data, prefix, keep, busy);
  }

  lemma OtherFileKeeps(s: State, p: Plan, at: Time, ext: string, data: Bytes, a: nat, b: nat, onDest: bool,
                       prefix: string, time: Time, e: string, d: Bytes)
    requires LegalPlan(p) && Retention.Valid(at) && Inv(s, p, FileName(p.prefix, at, ext), data, a, b)
    requires Allowed(p, FileName(p.prefix, at, ext), at, a, b, OtherFile(onDest, prefix, time, e, d))
    ensures Inv(Act(s, p, FileName(p.prefix, at, ext), OtherFile(onDest, prefix, time, e, d)),
                p, FileName(p.prefix, at, ext), data, a, b)
  {
    var name, n := FileName(p.prefix, at, ext), FileName(prefix, time, e);
    PrefixesDoNotMix(p.prefix, p.prefix, at, ext);
    if Matches(n, p.prefix) {
      OthersOlder(p.prefix, at, ext, prefix, time, e);
    }
    RankShrinks(if onDest then s.dst else s.src, (if onDest then s.dst else s.src)[n := d], p, name);
  }

  lemma OtherDeleteKeeps(s: State, p: Plan, name: string, data: Bytes, a: nat, b: nat, onDest: bool, n: string)
    requires Inv(s, p, name, data, a, b) && n != name
    ensures Inv(Act(s, p, name, OtherDelete(onDest, n)), p, name, data, a, b)
  {
    RankShrinks(if onDest then s.dst else s.src, (if onDest then s.dst else s.src) - {n}, p, name);
  }

  lemma ActKeeps(s: State, p: Plan, at: Time, ext: string, data: Bytes, a: nat, b: nat, act: Action)
    requires LegalPlan(p) && Retention.Valid(at) && Inv(s, p, FileName(p.prefix, at, ext), data, a, b)
    requires Allowed(p, FileName(p.prefix, at, ext), at, a, b, act)
    ensures Inv(Act(s, p, FileName(p.prefix, at, ext), act), p, FileName(p.prefix, at, ext), data, a, b)
  {
    var name := FileName(p.prefix, at, ext);
    match act
    case CarryOut(r, busy) => CarryOutKeeps(s, p, name, data, a, b, r, busy);
    case Answer => AnswerKeeps(s, p, name, data, a, b);
    case GiveUp =>
    case OtherPrune(onDest, prefix, keep, busy) =>
      PrefixesDoNotMix(prefix, p.prefix, at, ext);
      OtherPruneKeeps(s, p, name, data, a, b, onDest, prefix, keep, busy);
    case OtherFile(onDest, prefix, time, e, d) => OtherFileKeeps(s, p, at, ext, data, a, b, onDest, prefix, time, e, d);
    case OtherDelete(onDest, n) => OtherDeleteKeeps(s, p, name, data, a, b, onDest, n);
  }

  lemma {:induction false} RunKeeps(s: State, p: Plan, at: Time, ext: string, data: Bytes, acts: seq<Action>)
    requires JobDone(s, p, at, ext, data) && Safe(s, p, FileName(p.prefix, at, ext))
    requires AllAllowed(s, p, FileName(p.prefix, at, ext), at, acts)
    ensures var name := FileName(p.prefix, at, ext);
            Inv(Run(s, p, name, acts), p, name, data, Rank(s.src, p, name), Rank(s.dst, p, name))
  {
    var name := FileName(p.prefix, at, ext);
    if acts != [] {
      RunKeeps(s, p, at, ext, data, acts[..|acts| - 1]);
      ActKeeps(Run(s, p, name, acts[..|acts| - 1]), p, at, ext, data,
               Rank(s.src, p, name), Rank(s.dst, p, name), acts[|acts| - 1]);
    }
  }

  // ----- Main results -----

  /** Files of this plan made earlier: the case of a clock that moves forward. */
  ghost predicate AllEarlier(files: map<string, Bytes>, p: Plan, name: string, at: Time) {
    forall m :: m in files && m != name && Matches(m, p.prefix) ==>
      exists t, e :: m == FileName(p.prefix, t, e) && Retention.Valid(t) && Earlier(t, at)
  }

  /** Then no name sorts after the new one, whatever `keep` is, so that the results below apply to every plan. */
  lemma LatestIsSafe(s: State, p: Plan, at: Time, ext: string, data: Bytes)
    requires JobDone(s, p, at, ext, data)
    requires AllEarlier(s.src, p, FileName(p.prefix, at, ext), at)
             && AllEarlier(s.dst, p, FileName(p.prefix, at, ext), at)
    ensures var name := FileName(p.prefix, at, ext);
            Rank(s.src, p, name) == 0 && Rank(s.dst, p, name) == 0 && Safe(s, p, name)
  {
    NoneLater(s.src, p, at, ext);
    NoneLater(s.dst, p, at, ext);
  }

  lemma NoneLater(files: map<string, Bytes>, p: Plan, at: Time, ext: string)
    requires LegalPlan(p) && Retention.Valid(at) && AllEarlier(files, p, FileName(p.prefix, at, ext), at)
    ensures Rank(files, p, FileName(p.prefix, at, ext)) == 0
  {
    var name := FileName(p.prefix, at, ext);
    LessTotal(name, name);
    forall m | m in files && Matches(m, p.prefix)
      ensures !Less(name, m)
    {
      if m != name {
        var t, e :| m == FileName(p.prefix, t, e) && Retention.Valid(t) && Earlier(t, at);
        OthersOlder(p.prefix, at, ext, p.prefix, t, e);
      }
    }
    assert Newer(files, p.prefix, name) == {};
  }

  /** At every moment after the job, whatever fails, a complete copy exists on one of the two servers. */
  lemma CompleteCopyExists(s: State, p: Plan, at: Time, ext: string, data: Bytes, acts: seq<Action>)
    requires JobDone(s, p, at, ext, data) && Safe(s, p, FileName(p.prefix, at, ext))
    requires AllAllowed(s, p, FileName(p.prefix, at, ext), at, acts)
    ensures CopyExists(Run(s, p, FileName(p.prefix, at, ext), acts), FileName(p.prefix, at, ext), data)
  {
    RunKeeps(s, p, at, ext, data, acts);
  }

  /** A run recorded as done left the copy it was asked for, and the local file unless it was to be deleted. */
  lemma DoneMeansCopied(s: State, p: Plan, at: Time, ext: string, data: Bytes, acts: seq<Action>)
    requires JobDone(s, p, at, ext, data) && Safe(s, p, FileName(p.prefix, at, ext))
    requires AllAllowed(s, p, FileName(p.prefix, at, ext), at, acts)
    requires Rank(s.dst, p, FileName(p.prefix, at, ext)) < p.destKeep
    ensures var name := FileName(p.prefix, at, ext);
            var now := Run(s, p, name, acts);
            now.stage == Ended(true) ==>
              (p.hasDest ==> Has(now.dst, name, data)) && (!p.deleteLocal ==> Has(now.src, name, data))
  {
    RunKeeps(s, p, at, ext, data, acts);
  }

  // ----- Exactly when -----

  lemma RunMore(s: State, p: Plan, name: string, acts: seq<Action>, act: Action)
    ensures Run(s, p, name, acts + [act]) == Act(Run(s, p, name, acts), p, name, act)
  {
    assert (acts + [act])[..|acts + [act]| - 1] == acts;
  }

  /** The requests of a run in order, each carried out and answered. */
  function WithoutFaults(p: Plan, data: Bytes): seq<Action> {
    [CarryOut(Prune(p.keep), {}), Answer]
    + (if p.hasDest then [CarryOut(Store(data), {}), Answer, CarryOut(PruneDest(p.destKeep), {}), Answer] else [])
    + (if p.hasDest && p.deleteLocal then [CarryOut(DeleteLocal, {}), Answer] else [])
  }

  /** Carrying out the awaited request and answering it enters the next stage. */
  lemma InTurn(s: State, p: Plan, name: string, acts: seq<Action>, r: Request, now: State)
    requires now == Run(s, p, name, acts) && r in now.pending && Awaited(p, now.stage, r)
    ensures var did := Effect(now, p, name, r, {}).(pending := now.pending - {r}, done := now.done + {r});
            Run(s, p, name, acts + [CarryOut(r, {}), Answer]) == Enter(did, p, name, NextStage(p, now.stage))
  {
    RunMore(s, p, name, acts, CarryOut(r, {}));
    RunMore(s, p, name, acts + [CarryOut(r, {})], Answer);
    assert acts + [CarryOut(r, {})] + [Answer] == acts + [CarryOut(r, {}), Answer];
    assert r in Act(now, p, name, CarryOut(r, {})).done;
  }

  /** The first request: the source is pruned; without a destination the run is done. */
  lemma FirstTurn(s: State, p: Plan, at: Time, ext: string, data: Bytes)
    requires JobDone(s, p, at, ext, data) && Rank(s.src, p, FileName(p.prefix, at, ext)) < p.keep
    ensures var now := Run(s, p, FileName(p.prefix, at, ext), [CarryOut(Prune(p.keep), {}), Answer]);
            && now.src == Pruned(s.src, p.prefix, p.keep, {}) && now.dst == s.dst
            && (if p.hasDest then now.stage == Copying && Store(data) in now.pending else now.stage == Ended(true))
  {
    var name := FileName(p.prefix, at, ext);
    PruneSpares(s.src, p, name, data, p.prefix, p.keep, {});
    InTurn(s, p, name, [], Prune(p.keep), Run(s, p, name, []));
    assert [] + [CarryOut(Prune(p.keep), {}), Answer] == [CarryOut(Prune(p.keep), {}), Answer];
  }

  /** Store and prune on the destination. */
  lemma MiddleTurns(s: State, p: Plan, at: Time, ext: string, data: Bytes, acts: seq<Action>)
    requires JobDone(s, p, at, ext, data) && p.hasDest && Rank(s.src, p, FileName(p.prefix, at, ext)) < p.keep
    requires acts == [CarryOut(Prune(p.keep), {}), Answer]
                     + [CarryOut(Store(data), {}), Answer, CarryOut(PruneDest(p.destKeep), {}), Answer]
    ensures var name := FileName(p.prefix, at, ext);
            var now := Run(s, p, name, acts);
            && now.src == Pruned(s.src, p.prefix, p.keep, {})
            && now.dst == Pruned(s.dst[name := data], p.prefix, p.destKeep, {})
            && (if p.deleteLocal then now.stage == Deleting && DeleteLocal in now.pending else now.stage == Ended(true))
  {
    var name := FileName(p.prefix, at, ext);
    var one := [CarryOut(Prune(p.keep), {}), Answer];
    var two := one + [CarryOut(Store(data), {}), Answer];
    FirstTurn(s, p, at, ext, data);
    InTurn(s, p, name, one, Store(data), Run(s, p, name, one));
    InTurn(s, p, name, two, PruneDest(p.destKeep), Run(s, p, name, two));
    assert two + [CarryOut(PruneDest(p.destKeep), {}), Answer] == acts;
  }

  /** A run in which every request is carried out and answered is recorded as done, and leaves exactly: on the
      source the pruned files, without the new one if it was to be deleted; on the destination, if there is one,
      its pruned files with the new one. */
  lemma EndsAsDone(s: State, p: Plan, at: Time, ext: string, data: Bytes)
    requires JobDone(s, p, at, ext, data) && Safe(s, p, FileName(p.prefix, at, ext))
    ensures var name := FileName(p.prefix, at, ext);
            var now := Run(s, p, name, WithoutFaults(p, data));
            && now.stage == Ended(true)
            && now.src == Pruned(s.src, p.prefix, p.keep, {}) - (if p.deleteLocal then {name} else {})
            && now.dst == (if p.hasDest then Pruned(s.dst[name := data], p.prefix, p.destKeep, {}) else s.dst)
            && (p.deleteLocal || Has(now.src, name, data))
            && (p.hasDest && Rank(s.dst, p, name) < p.destKeep ==> Has(now.dst, name, data))
  {
    var name := FileName(p.prefix, at, ext);
    PruneSpares(s.src, p, name, data, p.prefix, p.keep, {});
    if !p.hasDest {
      FirstTurn(s, p, at, ext, data);
      assert WithoutFaults(p, data) == [CarryOut(Prune(p.keep), {}), Answer];
    } else {
      var acts := [CarryOut(Prune(p.keep), {}), Answer]
                  + [CarryOut(Store(data), {}), Answer, CarryOut(PruneDest(p.destKeep), {}), Answer];
      MiddleTurns(s, p, at, ext, data, acts);
      LessTotal(name, name);
      RankShrinks(s.dst, s.dst[name := data], p, name);
      if Rank(s.dst, p, name) < p.destKeep {
        PruneSpares(s.dst[name := data], p, name, data, p.prefix, p.destKeep, {});
      }
      if p.deleteLocal {
        InTurn(s, p, name, acts, DeleteLocal, Run(s, p, name, acts));
        assert WithoutFaults(p, data) == acts + [CarryOut(DeleteLocal, {}), Answer];
      } else {
        assert WithoutFaults(p, data) == acts;
      }
    }
  }

  /** Too many later names on the source: the first prune removes the only copy. */
  lemma LostAtFirstPrune(s: State, p: Plan, at: Time, ext: string, data: Bytes) returns (acts: seq<Action>)
    requires JobDone(s, p, at, ext, data) && Rank(s.src, p, FileName(p.prefix, at, ext)) >= p.keep
    ensures AllAllowed(s, p, FileName(p.prefix, at, ext), at, acts)
    ensures !CopyExists(Run(s, p, FileName(p.prefix, at, ext), acts), FileName(p.prefix, at, ext), data)
  {
    var name := FileName(p.prefix, at, ext);
    PrefixesDoNotMix(p.prefix, p.prefix, at, ext);
    RunMore(s, p, name, [], CarryOut(Prune(p.keep), {}));
    acts := [] + [CarryOut(Prune(p.keep), {})];
  }

  /** Too many later names on the destination: the copy is pruned away and then the local file deleted. */
  lemma LostAtDelete(s: State, p: Plan, at: Time, ext: string, data: Bytes) returns (acts: seq<Action>)
    requires JobDone(s, p, at, ext, data) && p.deleteLocal
    requires Rank(s.src, p, FileName(p.prefix, at, ext)) < p.keep
             && Rank(s.dst, p, FileName(p.prefix, at, ext)) >= p.destKeep
    ensures AllAllowed(s, p, FileName(p.prefix, at, ext), at, acts)
    ensures !CopyExists(Run(s, p, FileName(p.prefix, at, ext), acts), FileName(p.prefix, at, ext), data)
  {
    var name := FileName(p.prefix, at, ext);
    var first := [CarryOut(Prune(p.keep), {}), Answer]
                 + [CarryOut(Store(data), {}), Answer, CarryOut(PruneDest(p.destKeep), {}), Answer];
    MiddleTurns(s, p, at, ext, data, first);
    PrefixesDoNotMix(p.prefix, p.prefix, at, ext);
    LessTotal(name, name);
    RankShrinks(s.dst[name := data], s.dst, p, name);
    assert name !in Run(s, p, name, first).dst;
    InTurn(s, p, name, first, DeleteLocal, Run(s, p, name, first));
    acts := first + [CarryOut(DeleteLocal, {}), Answer];
  }

  /** A complete copy survives every run if and only if fewer than `keep` files of the plan are named later on
      the source and, when the local file is deleted, fewer than `dest_keep` on the destination. */
  lemma CopySurvivesIff(s: State, p: Plan, at: Time, ext: string, data: Bytes)
    requires JobDone(s, p, at, ext, data)
    ensures var name := FileName(p.prefix, at, ext);
            (forall acts :: AllAllowed(s, p, name, at, acts) ==> CopyExists(Run(s, p, name, acts), name, data))
            <==> Safe(s, p, name)
  {
    var name := FileName(p.prefix, at, ext);
    if Safe(s, p, name) {
      forall acts | AllAllowed(s, p, name, at, acts)
        ensures CopyExists(Run(s, p, name, acts), name, data)
      {
        CompleteCopyExists(s, p, at, ext, data, acts);
      }
    } else if Rank(s.src, p, name) >= p.keep {
      var acts := LostAtFirstPrune(s, p, at, ext, data);
    } else {
      var acts := LostAtDelete(s, p, at, ext, data);
    }
  }

  /** So a clock set back loses backups: with `keep` 1 and one file stamped later, the new backup is gone at once. */
  lemma ClockBackLosesBackup(prefix: string, at: Time, ahead: Time, ext: string, data: Bytes)
    requires '-' !in prefix && Retention.Valid(at) && Retention.Valid(ahead) && Earlier(at, ahead)
    ensures var name := FileName(prefix, at, ext);
            var s := State(map[FileName(prefix, ahead, ext) := [], name := data], map[], Ended(false), {}, {});
            var now := Run(s, Plan(prefix, 1, true, 1, true), name, [CarryOut(Prune(1), {})]);
            Has(s.src, name, data) && !Has(now.src, name, data) && !Has(now.dst, name, data)
  {
    var name, newer := FileName(prefix, at, ext), FileName(prefix, ahead, ext);
    var s, p := State(map[newer := [], name := data], map[], Ended(false), {}, {}), Plan(prefix, 1, true, 1, true);
    NamesSortByTime(prefix, at, ahead, ext, ext);
    PrefixesDoNotMix(prefix, prefix, at, ext);
    PrefixesDoNotMix(prefix, prefix, ahead, ext);
    assert newer in Newer(s.src, prefix, name);
    SubsetSize({newer}, Newer(s.src, prefix, name));
    RunMore(s, p, name, [], CarryOut(Prune(1), {}));
    assert [] + [CarryOut(Prune(1), {})] == [CarryOut(Prune(1), {})];
  }
}
