/** The alert engine as the hub runs it: dictionaries and table rows changed in place, and the
    evaluation of one sample (hub/icsd_hub/alerts.py).  Every method is tied to the operations of `Alerts`.
 */
module AlertEngine {
  import opened Common
  import opened Alerts

  // ----- What one sample says -----

  datatype Disk = Disk(mount: string, pct: real, inodesPct: real)

  datatype Container = Container(name: string, state: string, health: string, status: string)

  datatype Sample = Sample(cpu: real, mem: real, load1: real, steal: real,
                           disks: Option<seq<Disk>>, containers: Option<seq<Container>>, dockerErr: bool)

  predicate Broken(c: Container) {
    c.state == "restarting" || c.state == "dead" || c.health == "unhealthy" ||
    (c.state == "exited" && !("Exited (0)" <= c.status))
  }

  function PerCore(load1: real, cpus: int): real {
    load1 / (if cpus < 1 then 1 else cpus) as real
  }

  predicate Over(rules: map<string, Rule>, kind: string, value: real) {
    kind in rules && value >= rules[kind].threshold
  }

  function LastDisk(ds: seq<Disk>, mount: string): Option<Disk> {
    if ds == [] then None
    else if ds[|ds| - 1].mount == mount then Some(ds[|ds| - 1])
    else LastDisk(ds[..|ds| - 1], mount)
  }

  function LastContainer(cs: seq<Container>, name: string): Option<Container> {
    if cs == [] then None
    else if cs[|cs| - 1].name == name then Some(cs[|cs| - 1])
    else LastContainer(cs[..|cs| - 1], name)
  }

  predicate DiskKind(kind: string) {
    kind == "disk" || kind == "disk_full" || kind == "inodes"
  }

  predicate BasicKind(kind: string) {
    kind == "cpu" || kind == "mem" || kind == "load" || kind == "steal"
  }

  /** The kinds a sample decides. */
  predicate Covers(s: Sample, kind: string) {
    BasicKind(kind) || (DiskKind(kind) && s.disks.Some?) ||
    (kind == "container" && s.containers.Some? && !s.dockerErr)
  }

  function BasicValue(s: Sample, cpus: int, kind: string): real {
    match kind
    case "cpu" => s.cpu
    case "mem" => s.mem
    case "load" => PerCore(s.load1, cpus)
    case _ => s.steal
  }

  /** The last entry of a mount or container decides it; one that is not listed is fine. */
  predicate SaysBad(rules: map<string, Rule>, s: Sample, cpus: int, kind: string, subject: string)
    requires Covers(s, kind)
  {
    if BasicKind(kind) then subject == "" && Over(rules, kind, BasicValue(s, cpus, kind))
    else if DiskKind(kind) then
      var d := LastDisk(s.disks.value, subject);
      d.Some? && Over(rules, kind, if kind == "inodes" then d.value.inodesPct else d.value.pct)
    else
      var c := LastContainer(s.containers.value, subject);
      c.Some? && Broken(c.value)
  }

  // ----- A sample as a list of judgements -----

  datatype Verdict = Verdict(kind: string, subject: string, bad: bool)

  function LastVerdict(vs: seq<Verdict>, kind: string, subject: string): Option<bool> {
    if vs == [] then None
    else
      var v := vs[|vs| - 1];
      if v.kind == kind && v.subject == subject then Some(v.bad)
      else LastVerdict(vs[..|vs| - 1], kind, subject)
  }

  lemma LastVerdictSnoc(vs: seq<Verdict>, v: Verdict, kind: string, subject: string)
    ensures LastVerdict(vs + [v], kind, subject) ==
            if v.kind == kind && v.subject == subject then Some(v.bad) else LastVerdict(vs, kind, subject)
  {
    assert (vs + [v])[..|vs + [v]| - 1] == vs;
  }

  lemma {:induction false} LastVerdictConcat(a: seq<Verdict>, b: seq<Verdict>, kind: string, subject: string)
    ensures LastVerdict(a + b, kind, subject) ==
            if LastVerdict(b, kind, subject).Some? then LastVerdict(b, kind, subject) else LastVerdict(a, kind, subject)
  {
    if b == [] {
      assert a + b == a;
    } else {
      assert (a + b)[..|a + b| - 1] == a + b[..|b| - 1];
      LastVerdictConcat(a, b[..|b| - 1], kind, subject);
    }
  }

  function BasicVerdicts(rules: map<string, Rule>, s: Sample, cpus: int): seq<Verdict> {
    [Verdict("cpu", "", Over(rules, "cpu", s.cpu)),
     Verdict("mem", "", Over(rules, "mem", s.mem)),
     Verdict("load", "", Over(rules, "load", PerCore(s.load1, cpus))),
     Verdict("steal", "", Over(rules, "steal", s.steal))]
  }

  function DiskVerdict(rules: map<string, Rule>, d: Disk): seq<Verdict> {
    [Verdict("disk", d.mount, Over(rules, "disk", d.pct)),
     Verdict("disk_full", d.mount, Over(rules, "disk_full", d.pct)),
     Verdict("inodes", d.mount, Over(rules, "inodes", d.inodesPct))]
  }

  function DiskVerdicts(rules: map<string, Rule>, ds: seq<Disk>): seq<Verdict> {
    if ds == [] then [] else DiskVerdicts(rules, ds[..|ds| - 1]) + DiskVerdict(rules, ds[|ds| - 1])
  }

  function ContainerVerdicts(cs: seq<Container>): seq<Verdict> {
    if cs == [] then []
    else ContainerVerdicts(cs[..|cs| - 1]) + [Verdict("container", cs[|cs| - 1].name, Broken(cs[|cs| - 1]))]
  }

  lemma LastOfBasics(rules: map<string, Rule>, s: Sample, cpus: int, kind: string, subject: string)
    ensures LastVerdict(BasicVerdicts(rules, s, cpus), kind, subject) ==
            if BasicKind(kind) && subject == "" then Some(Over(rules, kind, BasicValue(s, cpus, kind))) else None
  {
    var b := BasicVerdicts(rules, s, cpus);
    assert b == [b[0]] + [b[1]] + [b[2]] + [b[3]];
    assert [b[0]] == [] + [b[0]];
    LastVerdictSnoc([], b[0], kind, subject);
    LastVerdictSnoc([b[0]], b[1], kind, subject);
    LastVerdictSnoc([b[0]] + [b[1]], b[2], kind, subject);
    LastVerdictSnoc([b[0]] + [b[1]] + [b[2]], b[3], kind, subject);
  }

  lemma LastOfDisk(rules: map<string, Rule>, d: Disk, kind: string, subject: string)
    ensures LastVerdict(DiskVerdict(rules, d), kind, subject) ==
            if DiskKind(kind) && d.mount == subject
            then Some(Over(rules, kind, if kind == "inodes" then d.inodesPct else d.pct)) else None
  {
    var b := DiskVerdict(rules, d);
    assert b == [b[0]] + [b[1]] + [b[2]];
    assert [b[0]] == [] + [b[0]];
    LastVerdictSnoc([], b[0], kind, subject);
    LastVerdictSnoc([b[0]], b[1], kind, subject);
    LastVerdictSnoc([b[0]] + [b[1]], b[2], kind, subject);
  }

  lemma {:induction false} LastOfDisks(rules: map<string, Rule>, ds: seq<Disk>, kind: string, subject: string)
    ensures LastVerdict(DiskVerdicts(rules, ds), kind, subject) ==
            if DiskKind(kind) && LastDisk(ds, subject).Some?
            then Some(Over(rules, kind, if kind == "inodes" then LastDisk(ds, subject).value.inodesPct
                                        else LastDisk(ds, subject).value.pct))
            else None
  {
    if ds == [] {
    } else {
      var init := ds[..|ds| - 1];
      LastOfDisks(rules, init, kind, subject);
      LastOfDisk(rules, ds[|ds| - 1], kind, subject);
      LastVerdictConcat(DiskVerdicts(rules, init), DiskVerdict(rules, ds[|ds| - 1]), kind, subject);
    }
  }

  lemma {:induction false} LastOfContainers(cs: seq<Container>, kind: string, subject: string)
    ensures LastVerdict(ContainerVerdicts(cs), kind, subject) ==
            if kind == "container" && LastContainer(cs, subject).Some?
            then Some(Broken(LastContainer(cs, subject).value)) else None
  {
    if cs == [] {
    } else {
      LastOfContainers(cs[..|cs| - 1], kind, subject);
      var vs := ContainerVerdicts(cs);
      assert vs[..|vs| - 1] == ContainerVerdicts(cs[..|cs| - 1]);
    }
  }

  ghost predicate Unchanged(pre: map<Key, Track>, cur: map<Key, Track>, k: Key) {
    (k in cur <==> k in pre) && (k in cur ==> cur[k] == pre[k])
  }

  /** `cur` is `pre` after judging every verdict in turn. */
  ghost predicate Follows(pre: map<Key, Track>, cur: map<Key, Track>, rules: map<string, Rule>, server: string,
                          vs: seq<Verdict>, k: Key)
  {
    var last := LastVerdict(vs, k.kind, k.subject);
    if k.server == server && last.Some?
    then k in cur <==> Effective(rules, k.kind, last.value)
    else Unchanged(pre, cur, k)
  }

  lemma StepTouchesOneKey(h: Hub, key: Key, bad: bool, value: real, now: real, quiet: bool)
    ensures var h' := Step(h, key, bad, value, now, quiet);
            && (key in h'.state <==> Effective(h.rules, key.kind, bad))
            && (forall k: Key :: k != key ==> Unchanged(h.state, h'.state, k))
            && h'.rules == h.rules
  {
  }

  lemma FollowsAppend(pre: map<Key, Track>, cur: map<Key, Track>, next: map<Key, Track>, rules: map<string, Rule>,
                      server: string, vs: seq<Verdict>, v: Verdict, k: Key)
    requires Follows(pre, cur, rules, server, vs, k)
    requires k == Key(v.kind, server, v.subject) ==> (k in next <==> Effective(rules, v.kind, v.bad))
    requires k != Key(v.kind, server, v.subject) ==> Unchanged(cur, next, k)
    ensures Follows(pre, next, rules, server, vs + [v], k)
  {
    assert (vs + [v])[..|vs + [v]| - 1] == vs;
  }

  ghost function Seen(vs: seq<Verdict>): set<(string, string)> {
    set i | 0 <= i < |vs| :: (vs[i].kind, vs[i].subject)
  }

  lemma {:induction false} SeenIffVerdict(vs: seq<Verdict>, kind: string, subject: string)
    ensures (kind, subject) in Seen(vs) <==> LastVerdict(vs, kind, subject).Some?
  {
    if vs == [] {
    } else {
      var init := vs[..|vs| - 1];
      SeenIffVerdict(init, kind, subject);
      assert forall i :: 0 <= i < |init| ==> vs[i] == init[i];
      assert (kind, subject) in Seen(vs) <==>
             (kind, subject) in Seen(init) || (kind, subject) == (vs[|vs| - 1].kind, vs[|vs| - 1].subject);
    }
  }

  lemma SeenAppend(vs: seq<Verdict>, v: Verdict)
    ensures Seen(vs + [v]) == Seen(vs) + {(v.kind, v.subject)}
  {
    assert forall i :: 0 <= i < |vs| ==> (vs + [v])[i] == vs[i];
    assert (vs + [v])[|vs|] == v;
    forall x | x in Seen(vs)
      ensures x in Seen(vs + [v])
    {
      var i :| 0 <= i < |vs| && x == (vs[i].kind, vs[i].subject);
      assert x == ((vs + [v])[i].kind, (vs + [v])[i].subject);
    }
  }

  lemma ForgotServer(pre: map<Key, Track>, cur: map<Key, Track>, server: string)
    requires forall k: Key :: k.server != server ==> Unchanged(pre, cur, k)
    requires forall k :: k in cur ==> k.server != server
    ensures cur == map k | k in pre && k.server != server :: pre[k]
  {
    var want := map k | k in pre && k.server != server :: pre[k];
    forall k
      ensures k in cur <==> k in want
      ensures k in cur ==> cur[k] == want[k]
    {
      assert k.server != server ==> Unchanged(pre, cur, k);
    }
  }

  ghost predicate RowLoaded(events: map<int, Row>, state: map<Key, Track>, id: int)
    requires OpenRow(events, id)
  {
    events[id].key in state && state[events[id].key] == FromRow(id, events[id])
  }

  lemma Reloaded(events: map<int, Row>, state: map<Key, Track>)
    requires forall id :: OpenRow(events, id) ==> RowLoaded(events, state, id)
    requires forall k :: k in state ==> k in OpenKeys(events)
    ensures state == map k | k in OpenKeys(events) :: FromRow(OpenIdOf(events, k), events[OpenIdOf(events, k)])
  {
    forall k | k in OpenKeys(events)
      ensures k in state && state[k] == FromRow(OpenIdOf(events, k), events[OpenIdOf(events, k)])
    {
      assert RowLoaded(events, state, OpenIdOf(events, k));
    }
  }

  // ----- The engine: the module-level dictionaries and the table, updated in place -----

  class Engine {
    var rules: map<string, Rule>
    var state: map<Key, Track>
    var events: map<int, Row>
    ghost var log: seq<Mark>

    ghost function View(): Hub
      reads this
    {
      Hub(rules, state, events, log)
    }

    ghost predicate Valid()
      reads this
    {
      Inv(View())
    }

    constructor ()
      ensures View() == EMPTY && Valid()
    {
      rules, state, events, log := map[], map[], map[], [];
    }

    method NewEventId() returns (id: int)
      ensures id == NextId(events)
    {
      var ids := events.Keys;
      if first :| first in ids {
        var m := first;
        ids := ids - {first};
        while exists x :: x in ids
          invariant m in events && ids <= events.Keys
          invariant forall x :: x in events && x !in ids ==> x <= m
          decreases ids
        {
          var x :| x in ids;
          ids := ids - {x};
          if x > m {
            m := x;
          }
        }
        assert IsMax(m, events.Keys);
        id := m + 1;
      } else {
        id := 1;
      }
    }

    method Judge(key: Key, bad: bool, value: real, now: real, quiet: bool)
      requires Valid()
      modifies this
      ensures Valid()
      ensures View() == Step(old(View()), key, bad, value, now, quiet)
    {
      StepKeeps(View(), key, bad, value, now, quiet);
      var b := bad;
      if key.kind !in rules || !rules[key.kind].enabled {
        b := false;
      }
      log := log + [Judged(key, b, now)];
      if b {
        var t := if key in state then state[key] else Track(now, None, value);
        t := t.(value := value);
        if t.event.None? && now - t.since >= rules[key.kind].forSeconds as real {
          var id := NewEventId();
          events := events[id := Row(key, value, t.since.Floor, None)];
          t := t.(event := Some(id));
          log := log + [Opened(key, id, rules[key.kind].forSeconds, now)];
        }
        state := state[key := t];
      } else if key in state {
        var t := state[key];
        if t.event.Some? {
          if t.event.value in events {
            events := events[t.event.value := events[t.event.value].(ended := Some(now.Floor))];
          }
          log := log + [if quiet then Silenced(key) else Resolved(key)];
        }
        state := state - {key};
      }
    }

    /** Judges every key of `todo` as fine: the loop shared by `settle` and `forget_subject`. */
    method CloseAll(keys: set<Key>, now: real, quiet: bool) returns (ghost ops: seq<Op>)
      requires Valid() && keys <= state.Keys
      modifies this
      ensures Valid()
      ensures View() == Run(old(View()), ops)
      ensures forall i :: 0 <= i < |ops| ==>
                ops[i].DoStep? && ops[i].key in keys && !ops[i].bad && ops[i].quiet == quiet
      ensures forall k: Key :: k in keys ==> k !in state
      ensures forall k: Key :: k !in keys ==> Unchanged(old(state), state, k)
      ensures rules == old(rules)
    {
      var todo := keys;
      ops := [];
      while todo != {}
        invariant Valid() && todo <= keys
        invariant View() == Run(old(View()), ops)
        invariant forall i :: 0 <= i < |ops| ==>
                    ops[i].DoStep? && ops[i].key in keys && !ops[i].bad && ops[i].quiet == quiet
        invariant forall k: Key :: k in keys - todo ==> k !in state
        invariant forall k: Key :: k !in keys - todo ==> Unchanged(old(state), state, k)
        invariant rules == old(rules)
        decreases todo
      {
        var k :| k in todo;
        ghost var before := View();
        Judge(k, false, 0.0, now, quiet);
        StepTouchesOneKey(before, k, false, 0.0, now, quiet);
        RunSnoc(old(View()), ops, DoStep(k, false, 0.0, now, quiet));
        ops := ops + [DoStep(k, false, 0.0, now, quiet)];
        todo := todo - {k};
        forall x: Key | x !in keys - todo
          ensures Unchanged(old(state), state, x)
        {
          assert x != k && Unchanged(before.state, state, x) && Unchanged(old(state), before.state, x);
        }
      }
    }

    method Settle(kinds: set<string>, server: string, seen: set<(string, string)>, now: real)
      returns (ghost ops: seq<Op>)
      requires Valid()
      modifies this
      ensures Valid()
      ensures View() == Run(old(View()), ops)
      ensures forall k: Key :: k.kind in kinds && k.server == server && (k.kind, k.subject) !in seen ==> k !in state
      ensures forall k: Key :: !(k.kind in kinds && k.server == server && (k.kind, k.subject) !in seen) ==>
                Unchanged(old(state), state, k)
      ensures rules == old(rules)
    {
      var keys := set k | k in state && k.kind in kinds && k.server == server && (k.kind, k.subject) !in seen;
      ops := CloseAll(keys, now, false);
    }

    method ForgetSubject(kind: string, subject: string, now: real) returns (ghost ops: seq<Op>)
      requires Valid()
      modifies this
      ensures Valid()
      ensures View() == Run(old(View()), ops)
      ensures forall i :: 0 <= i < |ops| ==> ops[i].DoStep? && ops[i].quiet
      ensures forall k: Key :: k.kind == kind && k.subject == subject ==> k !in state
      ensures forall k: Key :: !(k.kind == kind && k.subject == subject) ==> Unchanged(old(state), state, k)
    {
      var keys := set k | k in state && k.kind == kind && k.subject == subject;
      ops := CloseAll(keys, now, true);
    }

    method ForgetServer(server: string, now: int)
      requires Valid()
      modifies this
      ensures Valid()
      ensures View() == Alerts.ForgetServer(old(View()), server, now)
      ensures forall k: Key :: if k.server == server then k !in state else Unchanged(old(state), state, k)
      ensures events.Keys == old(events).Keys
      ensures forall id :: id in events ==>
                events[id] == if old(events)[id].key.server == server && old(events)[id].ended.None?
                              then old(events)[id].(ended := Some(now)) else old(events)[id]
    {
      events := map id | id in events ::
        if events[id].key.server == server && events[id].ended.None?
        then events[id].(ended := Some(now)) else events[id];
      var todo := set k | k in state && k.server == server;
      while todo != {}
        invariant todo <= state.Keys && forall k: Key :: k in todo ==> k.server == server
        invariant forall k: Key :: k in state && k.server == server ==> k in todo
        invariant forall k: Key :: k.server != server ==> Unchanged(old(state), state, k)
        invariant events == Alerts.ForgetServer(old(View()), server, now).events
        invariant rules == old(rules) && log == old(log)
        decreases todo
      {
        var k :| k in todo;
        state := state - {k};
        todo := todo - {k};
      }
      ForgotServer(old(state), state, server);
      log := log + [ServerDeleted(server)];
      ForgetServerKeeps(old(View()), server, now);
    }

    method Seed()
      requires Valid()
      modifies this
      ensures Valid()
      ensures View() == Restart(old(View()))
    {
      rules := DEFAULT_RULES + rules;
      state := map[];
      var ids := events.Keys;
      while exists id :: id in ids
        invariant ids <= events.Keys && events == old(events) && rules == DEFAULT_RULES + old(rules) && log == old(log)
        invariant forall id :: OpenRow(events, id) && id !in ids ==> RowLoaded(events, state, id)
        invariant forall k: Key :: k in state ==> k in OpenKeys(events)
        decreases ids
      {
        var id :| id in ids;
        ids := ids - {id};
        if events[id].ended.None? {
          forall i | OpenRow(events, i) && events[i].key == events[id].key
            ensures i == id
          {
            UniqueOpenRow(old(View()), i, id);
          }
          state := state[events[id].key := FromRow(id, events[id])];
        }
      }
      log := log + [Restarted];
      Reloaded(events, state);
      RestartKeeps(old(View()));
    }

    method UpdateRule(kind: string, threshold: real, forSeconds: int, severity: string, enabled: bool)
      returns (ok: bool)
      requires Valid()
      modifies this
      ensures Valid()
      ensures ok <==> kind in DEFAULT_RULES && (severity == "warning" || severity == "critical")
      ensures View() == if ok then SetRule(old(View()),
                                      kind, Rule(threshold, forSeconds, severity == "critical", enabled))
                        else old(View())
      ensures ok && kind in old(rules) ==>
                var wait := if forSeconds < 0 then 0 else if forSeconds > 86400 then 86400 else forSeconds;
                rules == old(rules)[kind := Rule(threshold, wait, severity == "critical", enabled)]
      ensures !ok || kind !in old(rules) ==> rules == old(rules)
      ensures state == old(state) && events == old(events)
    {
      ok := kind in DEFAULT_RULES && (severity == "warning" || severity == "critical");
      if ok {
        var rule := Rule(threshold, forSeconds, severity == "critical", enabled);
        DoKeeps(View(), DoSetRule(kind, rule));
        if kind in rules {
          rules := rules[kind := rule.(forSeconds := Clamp(forSeconds))];
        }
      }
    }

    /** `metrics.prune`: exactly the rows that ended before the cutoff go. */
    method PruneEvents(cutoff: int)
      requires Valid()
      modifies this
      ensures Valid() && View() == Alerts.PruneEvents(old(View()), cutoff)
      ensures rules == old(rules) && state == old(state)
      ensures forall id :: id in events <==>
                id in old(events) && !(old(events)[id].ended.Some? && old(events)[id].ended.value < cutoff)
      ensures forall id :: id in events ==> events[id] == old(events)[id]
    {
      PruneKeeps(View(), cutoff);
      events := map id | id in events && !(events[id].ended.Some? && events[id].ended.value < cutoff) :: events[id];
    }

    /** Part of the way through a sample: `vs` have been judged and `seen` recorded. */
    ghost predicate Judging(h0: Hub, ops: seq<Op>, server: string, vs: seq<Verdict>, seen: set<(string, string)>)
      reads this
    {
      Valid() && View() == Run(h0, ops) && rules == h0.rules && seen == Seen(vs) &&
      forall k: Key :: Follows(h0.state, state, rules, server, vs, k)
    }

    /** The inner function `chk` of `evaluate_sample`, and its container counterpart. */
    method Check(server: string, v: Verdict, value: real, now: real, seen: set<(string, string)>,
                 ghost h0: Hub, ghost vs: seq<Verdict>, ghost ops: seq<Op>)
      returns (seen': set<(string, string)>, ghost ops': seq<Op>)
      requires Judging(h0, ops, server, vs, seen)
      modifies this
      ensures Judging(h0, ops', server, vs + [v], seen')
    {
      var key := Key(v.kind, server, v.subject);
      ghost var before := View();
      seen' := seen + {(v.kind, v.subject)};
      Judge(key, v.bad, value, now, false);
      StepTouchesOneKey(before, key, v.bad, value, now, false);
      RunSnoc(h0, ops, DoStep(key, v.bad, value, now, false));
      ops' := ops + [DoStep(key, v.bad, value, now, false)];
      SeenAppend(vs, v);
      forall k: Key
        ensures Follows(h0.state, state, rules, server, vs + [v], k)
      {
        FollowsAppend(h0.state, before.state, state, rules, server, vs, v, k);
      }
    }

    method CheckBasics(server: string, s: Sample, cpus: int, now: real, ghost h0: Hub)
      returns (seen: set<(string, string)>, ghost ops: seq<Op>)
      requires Valid() && View() == h0
      modifies this
      ensures Judging(h0, ops, server, BasicVerdicts(rules, s, cpus), seen)
    {
      var load := PerCore(s.load1, cpus);
      ghost var b := BasicVerdicts(rules, s, cpus);
      seen, ops := {}, [];
      seen, ops := Check(server, Verdict("cpu", "", Over(rules, "cpu", s.cpu)), s.cpu, now, seen, h0, [], ops);
      assert [] + [b[0]] == b[..1];
      seen, ops := Check(server, Verdict("mem", "", Over(rules, "mem", s.mem)), s.mem, now, seen, h0, b[..1], ops);
      assert b[..1] + [b[1]] == b[..2];
      seen, ops := Check(server, Verdict("load", "", Over(rules, "load", load)), load, now, seen, h0, b[..2], ops);
      assert b[..2] + [b[2]] == b[..3];
      seen, ops := Check(server, Verdict("steal", "", Over(rules, "steal", s.steal)),
                         s.steal, now, seen, h0, b[..3], ops);
      assert b[..3] + [b[3]] == b;
    }

    method CheckDisk(server: string, d: Disk, now: real, seen0: set<(string, string)>,
                     ghost h0: Hub, ghost vs: seq<Verdict>, ghost ops0: seq<Op>)
      returns (seen: set<(string, string)>, ghost ops: seq<Op>)
      requires Judging(h0, ops0, server, vs, seen0)
      modifies this
      ensures Judging(h0, ops, server, vs + DiskVerdict(rules, d), seen)
    {
      var v1 := Verdict("disk", d.mount, Over(rules, "disk", d.pct));
      var v2 := Verdict("disk_full", d.mount, Over(rules, "disk_full", d.pct));
      var v3 := Verdict("inodes", d.mount, Over(rules, "inodes", d.inodesPct));
      seen, ops := Check(server, v1, d.pct, now, seen0, h0, vs, ops0);
      seen, ops := Check(server, v2, d.pct, now, seen, h0, vs + [v1], ops);
      seen, ops := Check(server, v3, d.inodesPct, now, seen, h0, vs + [v1] + [v2], ops);
      assert vs + [v1] + [v2] + [v3] == vs + DiskVerdict(rules, d);
    }

    method CheckDisks(server: string, disks: seq<Disk>, now: real, seen0: set<(string, string)>,
                      ghost h0: Hub, ghost vs: seq<Verdict>, ghost ops0: seq<Op>)
      returns (seen: set<(string, string)>, ghost ops: seq<Op>)
      requires Judging(h0, ops0, server, vs, seen0)
      modifies this
      ensures Judging(h0, ops, server, vs + DiskVerdicts(rules, disks), seen)
    {
      seen, ops := seen0, ops0;
      assert vs + [] == vs;
      for i := 0 to |disks|
        invariant Judging(h0, ops, server, vs + DiskVerdicts(h0.rules, disks[..i]), seen)
      {
        seen, ops := CheckDisk(server, disks[i], now, seen, h0, vs + DiskVerdicts(h0.rules, disks[..i]), ops);
        assert disks[..i + 1][..i] == disks[..i];
        assert vs + DiskVerdicts(h0.rules, disks[..i]) + DiskVerdict(h0.rules, disks[i]) ==
               vs + DiskVerdicts(h0.rules, disks[..i + 1]);
      }
      assert disks[..|disks|] == disks;
    }

    method CheckContainers(server: string, containers: seq<Container>, now: real, seen0: set<(string, string)>,
                           ghost h0: Hub, ghost vs: seq<Verdict>, ghost ops0: seq<Op>)
      returns (seen: set<(string, string)>, ghost ops: seq<Op>)
      requires Judging(h0, ops0, server, vs, seen0)
      modifies this
      ensures Judging(h0, ops, server, vs + ContainerVerdicts(containers), seen)
    {
      seen, ops := seen0, ops0;
      assert vs + [] == vs;
      for i := 0 to |containers|
        invariant Judging(h0, ops, server, vs + ContainerVerdicts(containers[..i]), seen)
      {
        var c := containers[i];
        var v := Verdict("container", c.name, Broken(c));
        seen, ops := Check(server, v, 0.0, now, seen, h0, vs + ContainerVerdicts(containers[..i]), ops);
        assert containers[..i + 1][..i] == containers[..i];
        assert vs + ContainerVerdicts(containers[..i]) + [v] == vs + ContainerVerdicts(containers[..i + 1]);
      }
      assert containers[..|containers|] == containers;
    }

    /** The three calls of `settle`, each only if the sample carries that part. */
    method SettleCovered(server: string, s: Sample, seen: set<(string, string)>, now: real) returns (ghost ops: seq<Op>)
      requires Valid()
      modifies this
      ensures Valid() && View() == Run(old(View()), ops) && rules == old(rules)
      ensures forall k: Key :: k.server == server && Covers(s, k.kind) && (k.kind, k.subject) !in seen ==> k !in state
      ensures forall k: Key :: !(k.server == server && Covers(s, k.kind) && (k.kind, k.subject) !in seen) ==>
                Unchanged(old(state), state, k)
    {
      ops := [];
      ghost var more: seq<Op>;
      if s.containers.Some? && !s.dockerErr {
        ops := Settle({"container"}, server, seen, now);
      }
      more := Settle({"cpu", "mem", "load", "steal"}, server, seen, now);
      RunConcat(old(View()), ops, more);
      ops := ops + more;
      if s.disks.Some? {
        more := Settle({"disk", "disk_full", "inodes"}, server, seen, now);
        RunConcat(old(View()), ops, more);
        ops := ops + more;
      }
    }

    method EvaluateSample(server: string, s: Sample, cpus: int, now: real) returns (ghost ops: seq<Op>)
      requires Valid()
      modifies this
      ensures Valid()
      ensures View() == Run(old(View()), ops) && rules == old(rules)
      // covered keys are tracked exactly when the sample makes them bad under an enabled rule
      ensures forall k: Key :: k.server == server && Covers(s, k.kind) ==>
                (k in state <==>
                   k.kind in rules && rules[k.kind].enabled && SaysBad(rules, s, cpus, k.kind, k.subject))
      // everything else is as it was
      ensures forall k: Key :: !(k.server == server && Covers(s, k.kind)) ==> Unchanged(old(state), state, k)
    {
      ghost var h0 := View();
      var seen;
      seen, ops := CheckBasics(server, s, cpus, now, h0);
      ghost var basics := BasicVerdicts(rules, s, cpus);
      var disks := if s.disks.Some? then s.disks.value else [];
      seen, ops := CheckDisks(server, disks, now, seen, h0, basics, ops);
      ghost var dv := DiskVerdicts(rules, disks);
      var containers := if s.containers.Some? && !s.dockerErr then s.containers.value else [];
      seen, ops := CheckContainers(server, containers, now, seen, h0, basics + dv, ops);
      ghost var vs := basics + dv + ContainerVerdicts(containers);
      ghost var judged := state;
      ghost var more := SettleCovered(server, s, seen, now);
      RunConcat(h0, ops, more);
      ops := ops + more;
      forall k: Key
        ensures k.server == server && Covers(s, k.kind) ==>
                  (k in state <==> Effective(rules, k.kind, SaysBad(rules, s, cpus, k.kind, k.subject)))
        ensures !(k.server == server && Covers(s, k.kind)) ==> Unchanged(h0.state, state, k)
      {
        SeenIffVerdict(vs, k.kind, k.subject);
        LastOfSample(rules, s, cpus, disks, containers, k.kind, k.subject);
        assert Follows(h0.state, judged, rules, server, vs, k);
      }
    }
  }

  // ----- What the sample evaluation means, spelled out -----

  /** The kinds covered, and when each is bad: a value that reaches its rule's threshold, load being per core, and
      a container that restarts, is dead, unhealthy, or exited with another code than 0. */
  lemma SampleMeans(rules: map<string, Rule>, s: Sample, cpus: int, subject: string)
    ensures forall kind :: Covers(s, kind) <==>
              || kind in {"cpu", "mem", "load", "steal"}
              || (kind in {"disk", "disk_full", "inodes"} && s.disks.Some?)
              || (kind == "container" && s.containers.Some? && !s.dockerErr)
    ensures SaysBad(rules, s, cpus, "cpu", "") <==> "cpu" in rules && s.cpu >= rules["cpu"].threshold
    ensures SaysBad(rules, s, cpus, "mem", "") <==> "mem" in rules && s.mem >= rules["mem"].threshold
    ensures SaysBad(rules, s, cpus, "load", "") <==>
              "load" in rules && s.load1 / (if cpus >= 1 then cpus else 1) as real >= rules["load"].threshold
    ensures SaysBad(rules, s, cpus, "steal", "") <==> "steal" in rules && s.steal >= rules["steal"].threshold
    ensures s.disks.Some? ==>
              forall kind :: kind in {"disk", "disk_full", "inodes"} ==>
                (SaysBad(rules, s, cpus, kind, subject) <==>
                   var d := LastDisk(s.disks.value, subject);
                   && d.Some? && kind in rules
                   && (if kind == "inodes" then d.value.inodesPct else d.value.pct) >= rules[kind].threshold)
    ensures s.containers.Some? && !s.dockerErr ==>
              (SaysBad(rules, s, cpus, "container", subject) <==>
                 var c := LastContainer(s.containers.value, subject);
                 c.Some? && (c.value.state in {"restarting", "dead"} || c.value.health == "unhealthy" ||
                             (c.value.state == "exited" && !("Exited (0)" <= c.value.status))))
  {
  }

  /** The last entry of a mount is the one after which none has that mount. */
  lemma {:induction false} LastDiskIs(ds: seq<Disk>, mount: string, i: nat)
    requires i < |ds| && ds[i].mount == mount && forall j :: i < j < |ds| ==> ds[j].mount != mount
    ensures LastDisk(ds, mount) == Some(ds[i])
  {
    if i == |ds| - 1 {
    } else {
      LastDiskIs(ds[..|ds| - 1], mount, i);
    }
  }

  lemma {:induction false} LastContainerIs(cs: seq<Container>, name: string, i: nat)
    requires i < |cs| && cs[i].name == name && forall j :: i < j < |cs| ==> cs[j].name != name
    ensures LastContainer(cs, name) == Some(cs[i])
  {
    if i == |cs| - 1 {
    } else {
      LastContainerIs(cs[..|cs| - 1], name, i);
    }
  }

  lemma LastOfSample(rules: map<string, Rule>, s: Sample, cpus: int, disks: seq<Disk>, containers: seq<Container>,
                     kind: string, subject: string)
    requires disks == (if s.disks.Some? then s.disks.value else [])
    requires containers == (if s.containers.Some? && !s.dockerErr then s.containers.value else [])
    ensures var vs := BasicVerdicts(rules, s, cpus) + DiskVerdicts(rules, disks) + ContainerVerdicts(containers);
            var last := LastVerdict(vs, kind, subject);
            if Covers(s, kind)
            then (last.Some? ==> last.value == SaysBad(rules, s, cpus, kind, subject)) &&
                 (last.None? ==> !SaysBad(rules, s, cpus, kind, subject))
            else last.None?
  {
    var b, d, c := BasicVerdicts(rules, s, cpus), DiskVerdicts(rules, disks), ContainerVerdicts(containers);
    LastVerdictConcat(b + d, c, kind, subject);
    LastVerdictConcat(b, d, kind, subject);
    LastOfBasics(rules, s, cpus, kind, subject);
    LastOfDisks(rules, disks, kind, subject);
    LastOfContainers(containers, kind, subject);
  }
}
