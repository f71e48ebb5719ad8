/** The alert state machine (hub/icsd_hub/alerts.py): memory beside the `events` table.

    `Hub` is the machine as a value: the rules, the in-memory `_state`, the table rows and a
    log of everything observable (judgements, messages, closes, restarts).  Each function
    below is one atomic operation; `Run` is any sequence of them.
 */
module Alerts {
  import opened Common

  datatype Key = Key(kind: string, server: string, subject: string)

  datatype Rule = Rule(threshold: real, forSeconds: int, critical: bool, enabled: bool)

  datatype Track = Track(since: real, event: Option<int>, value: real)

  datatype Row = Row(key: Key, value: real, started: int, ended: Option<int>)

  datatype Mark =
    | Judged(key: Key, bad: bool, at: real)                 // an evaluation, the rule applied
    | Opened(key: Key, id: int, forSeconds: int, at: real)  // the alert message
    | Resolved(key: Key)                                    // the "resolved" message
    | Silenced(key: Key)                                    // closed without a message
    | ServerDeleted(server: string)
    | Restarted

  datatype Hub = Hub(rules: map<string, Rule>, state: map<Key, Track>, events: map<int, Row>, log: seq<Mark>)

  const EMPTY := Hub(map[], map[], map[], [])

  const DEFAULT_RULES: map<string, Rule> := map[
    "offline" := Rule(120.0, 0, true, true),
    "cpu" := Rule(90.0, 600, false, true),
    "mem" := Rule(90.0, 300, false, true),
    "disk" := Rule(85.0, 0, false, true),
    "disk_full" := Rule(95.0, 0, true, true),
    "inodes" := Rule(90.0, 0, false, true),
    "load" := Rule(2.0, 600, false, true),
    "steal" := Rule(20.0, 600, false, true),
    "container" := Rule(0.0, 60, true, true),
    "check" := Rule(2.0, 0, true, true),
    "cert" := Rule(14.0, 0, false, true),
    "backup" := Rule(1.0, 0, true, true)]

  // ----- Operations -----

  ghost predicate IsMax(m: int, s: set<int>) {
    m in s && forall x :: x in s ==> x <= m
  }

  lemma {:induction false} MaxExists(s: set<int>, x: int)
    requires x in s
    ensures exists m :: IsMax(m, s)
    decreases s
  {
    if !IsMax(x, s) {
      var y :| y in s && y > x;
      MaxExists(s - {x}, y);
      var m :| IsMax(m, s - {x});
      forall z | z in s
        ensures z <= m
      {
        assert z == x || z in s - {x};
        assert y in s - {x};
      }
      assert IsMax(m, s);
    }
  }

  /** The id SQLite gives the next row: one more than the largest in the table. */
  ghost function NextId(events: map<int, Row>): (id: int)
    ensures id !in events
  {
    if x :| x in events.Keys then
      MaxExists(events.Keys, x);
      var m :| IsMax(m, events.Keys);
      m + 1
    else 1
  }

  function Effective(rules: map<string, Rule>, kind: string, bad: bool): bool {
    bad && kind in rules && rules[kind].enabled
  }

  function Tracked(h: Hub, key: Key, value: real, now: real): Track {
    if key in h.state then h.state[key].(value := value) else Track(now, None, value)
  }

  ghost function Step(h: Hub, key: Key, bad: bool, value: real, now: real, quiet: bool): Hub {
    var judged := h.log + [Judged(key, Effective(h.rules, key.kind, bad), now)];
    if Effective(h.rules, key.kind, bad) then
      var t := Tracked(h, key, value, now);
      var wait := h.rules[key.kind].forSeconds;
      if t.event.None? && now - t.since >= wait as real then
        var id := NextId(h.events);
        h.(state := h.state[key := t.(event := Some(id))],
           events := h.events[id := Row(key, value, t.since.Floor, None)],
           log := judged + [Opened(key, id, wait, now)])
      else
        h.(state := h.state[key := t], log := judged)
    else if key in h.state then
      var closed := h.(state := h.state - {key}, log := judged);
      match h.state[key].event
      case None => closed
      case Some(id) =>
        closed.(events := EndRow(h.events, id, now.Floor),
                log := judged + [if quiet then Silenced(key) else Resolved(key)])
    else
      h.(log := judged)
  }

  function EndRow(events: map<int, Row>, id: int, at: int): map<int, Row> {
    if id in events then events[id := events[id].(ended := Some(at))] else events
  }

  function ForgetServer(h: Hub, server: string, now: int): Hub {
    h.(events := map id | id in h.events ::
         if h.events[id].key.server == server && h.events[id].ended.None?
         then h.events[id].(ended := Some(now)) else h.events[id],
       state := map k | k in h.state && k.server != server :: h.state[k],
       log := h.log + [ServerDeleted(server)])
  }

  predicate OpenRow(events: map<int, Row>, id: int) {
    id in events && events[id].ended.None?
  }

  ghost function OpenKeys(events: map<int, Row>): set<Key> {
    set id | id in events && events[id].ended.None? :: events[id].key
  }

  ghost function OpenIdOf(events: map<int, Row>, key: Key): (id: int)
    requires key in OpenKeys(events)
    ensures OpenRow(events, id) && events[id].key == key
  {
    var id :| OpenRow(events, id) && events[id].key == key;
    id
  }

  function FromRow(id: int, row: Row): Track {
    Track(row.started as real, Some(id), row.value)
  }

  /** `seed`: add missing default rules, drop the memory, reload the open events. */
  ghost function Restart(h: Hub): Hub {
    h.(rules := DEFAULT_RULES + h.rules,
       state := map k | k in OpenKeys(h.events) :: FromRow(OpenIdOf(h.events, k), h.events[OpenIdOf(h.events, k)]),
       log := h.log + [Restarted])
  }

  function Clamp(forSeconds: int): int {
    if forSeconds < 0 then 0 else if forSeconds > 86400 then 86400 else forSeconds
  }

  function SetRule(h: Hub, kind: string, rule: Rule): Hub {
    if kind in DEFAULT_RULES && kind in h.rules
    then h.(rules := h.rules[kind := rule.(forSeconds := Clamp(rule.forSeconds))])
    else h
  }

  /** The retention of `metrics.prune`: old ended rows go, open rows stay. */
  function PruneEvents(h: Hub, cutoff: int): Hub {
    h.(events := map id | id in h.events && !(h.events[id].ended.Some? && h.events[id].ended.value < cutoff)
         :: h.events[id])
  }

  datatype Op =
    | DoStep(key: Key, bad: bool, value: real, now: real, quiet: bool)
    | DoForgetServer(server: string, at: int)
    | DoRestart
    | DoSetRule(kind: string, rule: Rule)
    | DoPrune(cutoff: int)

  ghost function Do(h: Hub, op: Op): Hub {
    match op
    case DoStep(key, bad, value, now, quiet) => Step(h, key, bad, value, now, quiet)
    case DoForgetServer(server, at) => ForgetServer(h, server, at)
    case DoRestart => Restart(h)
    case DoSetRule(kind, rule) => SetRule(h, kind, rule)
    case DoPrune(cutoff) => PruneEvents(h, cutoff)
  }

  ghost function Run(h: Hub, ops: seq<Op>): Hub {
    if ops == [] then h else Do(Run(h, ops[..|ops| - 1]), ops[|ops| - 1])
  }

  // ----- The correspondence between memory and table -----

  ghost predicate MemoryHasRow(h: Hub, k: Key) {
    k in h.state && h.state[k].event.Some? ==>
      OpenRow(h.events, h.state[k].event.value) && h.events[h.state[k].event.value].key == k
  }

  ghost predicate RowHasMemory(h: Hub, id: int) {
    OpenRow(h.events, id) ==>
      h.events[id].key in h.state && h.state[h.events[id].key].event == Some(id)
  }

  // ----- What the log says -----

  predicate Closes(m: Mark, k: Key) {
    m == Resolved(k) || m == Silenced(k) || m == ServerDeleted(k.server)
  }

  predicate Opens(m: Mark, k: Key) {
    m.Opened? && m.key == k
  }

  /** Whether an alert for `k` is outstanding after `log`. */
  function Outstanding(log: seq<Mark>, k: Key): bool {
    if log == [] then false
    else
      var m := log[|log| - 1];
      if Opens(m, k) then true
      else if Closes(m, k) then false
      else Outstanding(log[..|log| - 1], k)
  }

  /** Opens happen only when nothing is outstanding, closes only when something is. */
  predicate TurnTaken(log: seq<Mark>, i: nat)
    requires i < |log|
  {
    (log[i].Opened? ==> !Outstanding(log[..i], log[i].key)) &&
    (log[i].Resolved? || log[i].Silenced? ==> Outstanding(log[..i], log[i].key))
  }

  predicate Alternates(log: seq<Mark>) {
    forall i :: 0 <= i < |log| ==> TurnTaken(log, i)
  }

  /** Nothing that ends a streak of bad judgements of `k`. */
  predicate KeepsStreak(m: Mark, k: Key) {
    m != Restarted && m != ServerDeleted(k.server) && !(m.Judged? && m.key == k && !m.bad)
  }

  predicate Streak(log: seq<Mark>, k: Key, since: real, i: nat) {
    i < |log| && log[i] == Judged(k, true, since) &&
    forall j :: i < j < |log| ==> KeepsStreak(log[j], k)
  }

  ghost predicate InStreak(log: seq<Mark>, k: Key, since: real) {
    exists i :: Streak(log, k, since, i)
  }

  /** The open at `p` came after `forSeconds` of nothing but bad judgements. */
  ghost predicate Justified(log: seq<Mark>, p: nat)
    requires p < |log|
  {
    log[p].Opened? ==>
      exists since :: InStreak(log[..p], log[p].key, since) && log[p].at - since >= log[p].forSeconds as real
  }

  ghost predicate AllJustified(log: seq<Mark>) {
    forall p :: 0 <= p < |log| ==> Justified(log, p)
  }

  ghost predicate LogAgrees(h: Hub, k: Key) {
    Outstanding(h.log, k) <==> k in h.state && h.state[k].event.Some?
  }

  ghost predicate StreakTracked(h: Hub, k: Key) {
    k in h.state && h.state[k].event.None? ==> InStreak(h.log, k, h.state[k].since)
  }

  ghost predicate KeyOk(h: Hub, k: Key) {
    MemoryHasRow(h, k) && LogAgrees(h, k) && StreakTracked(h, k)
  }

  /** Tracked keys with an event and open rows are one to one, key for key; the log agrees with both. */
  ghost predicate Inv(h: Hub) {
    (forall k :: KeyOk(h, k)) && (forall id :: RowHasMemory(h, id)) && Alternates(h.log) && AllJustified(h.log)
  }

  // ----- Log lemmas -----

  lemma OutstandingAppend(log: seq<Mark>, m: Mark, k: Key)
    ensures Outstanding(log + [m], k) == (Opens(m, k) || (!Closes(m, k) && Outstanding(log, k)))
  {
    assert (log + [m])[..|log + [m]| - 1] == log;
  }

  lemma AlternatesAppend(log: seq<Mark>, m: Mark)
    requires Alternates(log)
    requires m.Opened? ==> !Outstanding(log, m.key)
    requires m.Resolved? || m.Silenced? ==> Outstanding(log, m.key)
    ensures Alternates(log + [m])
  {
    var l := log + [m];
    forall i | 0 <= i < |l|
      ensures TurnTaken(l, i)
    {
      assert l[..i] == log[..i];
      if i == |log| {
        assert log[..i] == log;
      } else {
        assert TurnTaken(log, i);
      }
    }
  }

  lemma JustifiedAppend(log: seq<Mark>, m: Mark)
    requires AllJustified(log)
    requires m.Opened? ==> exists since :: InStreak(log, m.key, since) && m.at - since >= m.forSeconds as real
    ensures AllJustified(log + [m])
  {
    var l := log + [m];
    forall p | 0 <= p < |l|
      ensures Justified(l, p)
    {
      assert l[..p] == log[..p];
      if p == |log| {
        assert log[..p] == log;
      } else {
        assert Justified(log, p);
      }
    }
  }

  lemma StreakAppend(log: seq<Mark>, m: Mark, k: Key, since: real)
    requires InStreak(log, k, since) && KeepsStreak(m, k)
    ensures InStreak(log + [m], k, since)
  {
    var i :| Streak(log, k, since, i);
    assert Streak(log + [m], k, since, i);
  }

  lemma StreakStart(log: seq<Mark>, k: Key, now: real)
    ensures InStreak(log + [Judged(k, true, now)], k, now)
  {
    assert Streak(log + [Judged(k, true, now)], k, now, |log|);
  }

  // ----- Every operation keeps the invariant -----

  /** Recording a judgement: streaks of other keys, and of this one if it was bad, go on. */
  lemma JudgedKeeps(h: Hub, key: Key, bad: bool, now: real)
    requires Inv(h)
    ensures var log := h.log + [Judged(key, bad, now)];
            && Alternates(log) && AllJustified(log)
            && (bad ==> InStreak(log, key, now))
  {
    var m := Judged(key, bad, now);
    AlternatesAppend(h.log, m);
    JustifiedAppend(h.log, m);
    if bad {
      StreakStart(h.log, key, now);
    }
  }

  lemma JudgedKeepsKey(h: Hub, key: Key, bad: bool, now: real, k: Key)
    requires KeyOk(h, k)
    ensures var log := h.log + [Judged(key, bad, now)];
            && Outstanding(log, k) == Outstanding(h.log, k)
            && (k in h.state && h.state[k].event.None? && (k != key || bad) ==> InStreak(log, k, h.state[k].since))
  {
    var m := Judged(key, bad, now);
    OutstandingAppend(h.log, m, k);
    if k in h.state && h.state[k].event.None? && (k != key || bad) {
      StreakAppend(h.log, m, k, h.state[k].since);
    }
  }

  lemma OpeningKeeps(h: Hub, key: Key, value: real, now: real, quiet: bool)
    requires Inv(h) && Effective(h.rules, key.kind, true)
    requires Tracked(h, key, value, now).event.None?
    requires now - Tracked(h, key, value, now).since >= h.rules[key.kind].forSeconds as real
    ensures Inv(Step(h, key, true, value, now, quiet))
  {
    var h' := Step(h, key, true, value, now, quiet);
    var judged := h.log + [Judged(key, true, now)];
    var m := Opened(key, NextId(h.events), h.rules[key.kind].forSeconds, now);
    assert KeyOk(h, key);
    JudgedKeeps(h, key, true, now);
    JudgedKeepsKey(h, key, true, now, key);
    AlternatesAppend(judged, m);
    assert InStreak(judged, key, Tracked(h, key, value, now).since);
    JustifiedAppend(judged, m);
    forall k
      ensures KeyOk(h', k)
    {
      assert KeyOk(h, k);
      JudgedKeepsKey(h, key, true, now, k);
      OutstandingAppend(judged, m, k);
      if k in h'.state && h'.state[k].event.None? {
        StreakAppend(judged, m, k, h.state[k].since);
      }
    }
    forall i
      ensures RowHasMemory(h', i)
    {
      assert RowHasMemory(h, i);
    }
  }

  lemma ClosingKeeps(h: Hub, key: Key, value: real, now: real, quiet: bool)
    requires Inv(h) && key in h.state && h.state[key].event.Some?
    ensures Inv(Step(h, key, false, value, now, quiet))
  {
    var h' := Step(h, key, false, value, now, quiet);
    var judged := h.log + [Judged(key, false, now)];
    var m := if quiet then Silenced(key) else Resolved(key);
    assert KeyOk(h, key);
    JudgedKeeps(h, key, false, now);
    JudgedKeepsKey(h, key, false, now, key);
    AlternatesAppend(judged, m);
    JustifiedAppend(judged, m);
    forall k
      ensures KeyOk(h', k)
    {
      assert KeyOk(h, k);
      JudgedKeepsKey(h, key, false, now, k);
      OutstandingAppend(judged, m, k);
      if k in h'.state && h'.state[k].event.None? {
        StreakAppend(judged, m, k, h.state[k].since);
      }
    }
    forall i
      ensures RowHasMemory(h', i)
    {
      assert RowHasMemory(h, i);
    }
  }

  function EventOf(h: Hub, k: Key): Option<int> {
    if k in h.state then h.state[k].event else None
  }

  lemma StepKeeps(h: Hub, key: Key, bad: bool, value: real, now: real, quiet: bool)
    requires Inv(h)
    ensures Inv(Step(h, key, bad, value, now, quiet))
  {
    var h' := Step(h, key, bad, value, now, quiet);
    var b := Effective(h.rules, key.kind, bad);
    var t := Tracked(h, key, value, now);
    if b && t.event.None? && now - t.since >= h.rules[key.kind].forSeconds as real {
      OpeningKeeps(h, key, value, now, quiet);
    } else if !b && key in h.state && h.state[key].event.Some? {
      ClosingKeeps(h, key, value, now, quiet);
      assert Step(h, key, false, value, now, quiet) == h';
    } else {
      JudgedKeeps(h, key, b, now);
      forall k
        ensures KeyOk(h', k)
      {
        assert KeyOk(h, k);
        JudgedKeepsKey(h, key, b, now, k);
        assert EventOf(h', k) == EventOf(h, k);
      }
      forall i
        ensures RowHasMemory(h', i)
      {
        assert RowHasMemory(h, i);
        assert OpenRow(h.events, i) ==> EventOf(h', h.events[i].key) == EventOf(h, h.events[i].key);
      }
    }
  }

  lemma ForgetServerKeeps(h: Hub, server: string, now: int)
    requires Inv(h)
    ensures Inv(ForgetServer(h, server, now))
  {
    var h' := ForgetServer(h, server, now);
    var m := ServerDeleted(server);
    AlternatesAppend(h.log, m);
    JustifiedAppend(h.log, m);
    forall k
      ensures KeyOk(h', k)
    {
      assert KeyOk(h, k);
      OutstandingAppend(h.log, m, k);
      if k in h'.state && h'.state[k].event.None? {
        StreakAppend(h.log, m, k, h.state[k].since);
      }
    }
    forall i
      ensures RowHasMemory(h', i)
    {
      assert RowHasMemory(h, i);
    }
  }

  lemma OpenKeysHas(events: map<int, Row>, id: int)
    requires OpenRow(events, id)
    ensures events[id].key in OpenKeys(events)
  {
  }

  lemma UniqueOpenRow(h: Hub, i: int, j: int)
    requires Inv(h) && OpenRow(h.events, i) && OpenRow(h.events, j) && h.events[i].key == h.events[j].key
    ensures i == j
  {
    assert RowHasMemory(h, i) && RowHasMemory(h, j);
  }

  lemma RestartKeeps(h: Hub)
    requires Inv(h)
    ensures Inv(Restart(h))
  {
    var h' := Restart(h);
    AlternatesAppend(h.log, Restarted);
    JustifiedAppend(h.log, Restarted);
    forall k
      ensures KeyOk(h', k)
    {
      assert KeyOk(h, k);
      OutstandingAppend(h.log, Restarted, k);
      if k in OpenKeys(h.events) {
        assert RowHasMemory(h, OpenIdOf(h.events, k));
      } else if Outstanding(h.log, k) {
        OpenKeysHas(h.events, h.state[k].event.value);
      }
    }
    forall i
      ensures RowHasMemory(h', i)
    {
      if OpenRow(h.events, i) {
        OpenKeysHas(h.events, i);
        UniqueOpenRow(h, i, OpenIdOf(h.events, h.events[i].key));
      }
    }
  }

  lemma PruneKeeps(h: Hub, cutoff: int)
    requires Inv(h)
    ensures Inv(PruneEvents(h, cutoff))
  {
    var h' := PruneEvents(h, cutoff);
    forall k
      ensures KeyOk(h', k)
    {
      assert KeyOk(h, k);
    }
    forall i
      ensures RowHasMemory(h', i)
    {
      assert RowHasMemory(h, i);
    }
  }

  lemma SetRuleKeeps(h: Hub, kind: string, rule: Rule)
    requires Inv(h)
    ensures Inv(SetRule(h, kind, rule))
  {
    var h' := SetRule(h, kind, rule);
    forall k
      ensures KeyOk(h', k)
    {
      assert KeyOk(h, k);
    }
    forall i
      ensures RowHasMemory(h', i)
    {
      assert RowHasMemory(h, i);
    }
  }

  lemma DoKeeps(h: Hub, op: Op)
    requires Inv(h)
    ensures Inv(Do(h, op))
  {
    match op
    case DoStep(key, bad, value, now, quiet) => StepKeeps(h, key, bad, value, now, quiet);
    case DoForgetServer(server, at) => ForgetServerKeeps(h, server, at);
    case DoRestart => RestartKeeps(h);
    case DoSetRule(kind, rule) => SetRuleKeeps(h, kind, rule);
    case DoPrune(cutoff) => PruneKeeps(h, cutoff);
  }

  lemma {:induction false} RunKeeps(h: Hub, ops: seq<Op>)
    requires Inv(h)
    ensures Inv(Run(h, ops))
  {
    if ops == [] {
    } else {
      RunKeeps(h, ops[..|ops| - 1]);
      DoKeeps(Run(h, ops[..|ops| - 1]), ops[|ops| - 1]);
    }
  }

  // ----- Main results -----

  /** In every reachable state at most one event is open per key, and it is the tracked one. */
  lemma OneOpenEventPerKey(ops: seq<Op>, i: int, j: int)
    requires var h := Run(EMPTY, ops);
             OpenRow(h.events, i) && OpenRow(h.events, j) && h.events[i].key == h.events[j].key
    ensures i == j
  {
    RunKeeps(EMPTY, ops);
    UniqueOpenRow(Run(EMPTY, ops), i, j);
  }

  lemma MemoryMatchesTable(ops: seq<Op>, k: Key)
    ensures var h := Run(EMPTY, ops);
            (k in h.state && h.state[k].event.Some?) <==> (exists id :: OpenRow(h.events, id) && h.events[id].key == k)
    ensures var h := Run(EMPTY, ops);
            forall id :: OpenRow(h.events, id) && h.events[id].key == k ==> h.state[k].event == Some(id)
  {
    RunKeeps(EMPTY, ops);
    var h := Run(EMPTY, ops);
    assert KeyOk(h, k);
    forall id | OpenRow(h.events, id) && h.events[id].key == k
      ensures k in h.state && h.state[k].event == Some(id)
    {
      assert RowHasMemory(h, id);
    }
  }

  lemma {:induction false} OutstandingSince(log: seq<Mark>, k: Key) returns (i: nat)
    requires Outstanding(log, k)
    ensures i < |log| && Opens(log[i], k) && forall j :: i < j < |log| ==> !Closes(log[j], k)
  {
    var m := log[|log| - 1];
    if Opens(m, k) {
      i := |log| - 1;
    } else {
      i := OutstandingSince(log[..|log| - 1], k);
    }
  }

  lemma {:induction false} OutstandingUntil(log: seq<Mark>, k: Key, i: nat) returns (j: nat)
    requires i < |log| && Opens(log[i], k) && !Outstanding(log, k)
    ensures i < j < |log| && Closes(log[j], k)
  {
    var m := log[|log| - 1];
    if Closes(m, k) {
      j := |log| - 1;
    } else {
      j := OutstandingUntil(log[..|log| - 1], k, i);
    }
  }

  /** Alert once: between two alert messages of a key it was resolved, silenced or its server deleted. */
  lemma NotifiedOnce(ops: seq<Op>, k: Key, i: nat, j: nat)
    requires var log := Run(EMPTY, ops).log; i < j < |log| && Opens(log[i], k) && Opens(log[j], k)
    ensures var log := Run(EMPTY, ops).log; exists c :: i < c < j && Closes(log[c], k)
  {
    RunKeeps(EMPTY, ops);
    var log := Run(EMPTY, ops).log;
    assert TurnTaken(log, j);
    var c := OutstandingUntil(log[..j], k, i);
  }

  /** Resolve once: each "resolved" answers an alert that nothing closed in between. */
  lemma ResolvedOnce(ops: seq<Op>, j: nat)
    requires var log := Run(EMPTY, ops).log; j < |log| && (log[j].Resolved? || log[j].Silenced?)
    ensures var log := Run(EMPTY, ops).log;
            exists i :: 0 <= i < j && Opens(log[i], log[j].key) && forall c :: i < c < j ==> !Closes(log[c], log[j].key)
  {
    RunKeeps(EMPTY, ops);
    var log := Run(EMPTY, ops).log;
    assert TurnTaken(log, j);
    var i := OutstandingSince(log[..j], log[j].key);
    forall c | i < c < j
      ensures !Closes(log[c], log[j].key)
    {
      assert log[..j][c] == log[c];
    }
  }

  /** An alert comes only after a full stretch of bad judgements, unbroken by a restart. */
  lemma OpenedAfterStreak(ops: seq<Op>, p: nat)
    requires var log := Run(EMPTY, ops).log; p < |log| && log[p].Opened?
    ensures var log := Run(EMPTY, ops).log;
            exists i, since :: 0 <= i < p && log[i] == Judged(log[p].key, true, since)
              && log[p].at - since >= log[p].forSeconds as real
              && forall j :: i < j < p ==> KeepsStreak(log[j], log[p].key)
  {
    RunKeeps(EMPTY, ops);
    var log := Run(EMPTY, ops).log;
    assert Justified(log, p);
    var since :| InStreak(log[..p], log[p].key, since) && log[p].at - since >= log[p].forSeconds as real;
    var i: nat :| Streak(log[..p], log[p].key, since, i);
    forall j | i < j < p
      ensures KeepsStreak(log[j], log[p].key)
    {
      assert log[..p][j] == log[j];
    }
    assert log[i] == Judged(log[p].key, true, since);
  }

  lemma RunSnoc(h: Hub, ops: seq<Op>, op: Op)
    ensures Run(h, ops + [op]) == Do(Run(h, ops), op)
  {
    assert (ops + [op])[..|ops + [op]| - 1] == ops;
  }

  lemma {:induction false} RunConcat(h: Hub, a: seq<Op>, b: seq<Op>)
    ensures Run(h, a + b) == Run(Run(h, a), b)
  {
    if b == [] {
      assert a + b == a;
    } else {
      assert (a + b)[..|a + b| - 1] == a + b[..|b| - 1];
      RunConcat(h, a, b[..|b| - 1]);
    }
  }
}
