/** What each judgement does, read off the log of everything before it (hub/icsd_hub/alerts.py): when an alert
    opens and when it does not, what the row says, and how it is closed.
 */
module AlertOutcomes {
  import opened Common
  import opened Alerts

  // ----- The start of a streak -----

  /** When the current streak of bad judgements of `k` began, if there is one: a good judgement, a restart and
      the deletion of the server end a streak. */
  function StartOf(log: seq<Mark>, k: Key): Option<real> {
    if log == [] then None
    else
      var m, before := log[|log| - 1], StartOf(log[..|log| - 1], k);
      if m == Restarted || m == ServerDeleted(k.server) then None
      else if m.Judged? && m.key == k then
        if !m.bad then None else if before.Some? then before else Some(m.at)
      else before
  }

  lemma StartAppend(log: seq<Mark>, m: Mark, k: Key)
    ensures StartOf(log + [m], k) ==
            if m == Restarted || m == ServerDeleted(k.server) then None
            else if m.Judged? && m.key == k then
              if !m.bad then None else if StartOf(log, k).Some? then StartOf(log, k) else Some(m.at)
            else StartOf(log, k)
  {
    assert (log + [m])[..|log|] == log;
  }

  /** Memory knows the start of every streak that has not opened yet. */
  ghost predicate StartOk(h: Hub, k: Key) {
    && (k !in h.state ==> StartOf(h.log, k) == None)
    && (k in h.state && h.state[k].event.None? ==> StartOf(h.log, k) == Some(h.state[k].since))
  }

  lemma StepStart(h: Hub, key: Key, bad: bool, value: real, now: real, quiet: bool, k: Key)
    requires StartOk(h, k)
    ensures StartOk(Step(h, key, bad, value, now, quiet), k)
  {
    var judged := Judged(key, Effective(h.rules, key.kind, bad), now);
    StartAppend(h.log, judged, k);
    var log := Step(h, key, bad, value, now, quiet).log;
    if |log| > |h.log| + 1 {
      assert log == h.log + [judged] + [log[|log| - 1]];
      StartAppend(h.log + [judged], log[|log| - 1], k);
    } else {
      assert log == h.log + [judged];
    }
  }

  lemma {:induction false} RunStart(ops: seq<Op>, k: Key)
    ensures StartOk(Run(EMPTY, ops), k)
  {
    if ops == [] {
    } else {
      var h, op := Run(EMPTY, ops[..|ops| - 1]), ops[|ops| - 1];
      RunStart(ops[..|ops| - 1], k);
      match op
      case DoStep(key, bad, value, now, quiet) => StepStart(h, key, bad, value, now, quiet, k);
      case DoForgetServer(server, _) => StartAppend(h.log, ServerDeleted(server), k);
      case DoRestart => StartAppend(h.log, Restarted, k);
      case DoSetRule(_, _) =>
      case DoPrune(_) =>
    }
  }

  // ----- Main results -----

  /** After any run, a bad judgement of `key` under an enabled rule, in a streak that began at `start`: an alert
      that is outstanding stays, with its row; otherwise one opens, with one message, exactly if the streak has
      lasted the rule's time, and its row says the key, the value of this judgement and the start. */
  lemma OpensExactlyWhenDue(ops: seq<Op>, key: Key, value: real, now: real, quiet: bool, start: Option<real>)
    requires var h := Run(EMPTY, ops);
             && key.kind in h.rules && h.rules[key.kind].enabled
             && start == StartOf(h.log + [Judged(key, true, now)], key)
    ensures start.Some?
    ensures var h, h' := Run(EMPTY, ops), Run(EMPTY, ops + [DoStep(key, true, value, now, quiet)]);
            var judged, wait := h.log + [Judged(key, true, now)], h.rules[key.kind].forSeconds;
            && key in h'.state && h'.state[key].value == value
            && if Outstanding(h.log, key) || now - start.value < wait as real
            then h'.log == judged && h'.events == h.events
            else exists id :: && id !in h.events && h'.log == judged + [Opened(key, id, wait, now)]
                              && h'.events == h.events[id := Row(key, value, start.value.Floor, None)]
    ensures var h, h' := Run(EMPTY, ops), Run(EMPTY, ops + [DoStep(key, true, value, now, quiet)]);
            Outstanding(h'.log, key) <==>
              Outstanding(h.log, key) || now - start.value >= h.rules[key.kind].forSeconds as real
  {
    var h := Run(EMPTY, ops);
    RunKeeps(EMPTY, ops);
    RunStart(ops, key);
    RunSnoc(EMPTY, ops, DoStep(key, true, value, now, quiet));
    assert KeyOk(h, key);
    StartAppend(h.log, Judged(key, true, now), key);
    OutstandingAppend(h.log, Judged(key, true, now), key);
    var wait := h.rules[key.kind].forSeconds;
    OutstandingAppend(h.log + [Judged(key, true, now)], Opened(key, NextId(h.events), wait, now), key);
  }

  /** A good judgement, or any under a rule that is missing or off: the key is forgotten; if an alert was
      outstanding, its row ends now and it is resolved, or silenced if the caller is quiet; otherwise nothing else
      happens. */
  lemma ClosesAtOnce(ops: seq<Op>, key: Key, bad: bool, value: real, now: real, quiet: bool)
    requires var h := Run(EMPTY, ops); !(bad && key.kind in h.rules && h.rules[key.kind].enabled)
    ensures var h, h' := Run(EMPTY, ops), Run(EMPTY, ops + [DoStep(key, bad, value, now, quiet)]);
            var judged := h.log + [Judged(key, false, now)];
            && key !in h'.state && !Outstanding(h'.log, key)
            && if Outstanding(h.log, key)
               then h'.log == judged + [if quiet then Silenced(key) else Resolved(key)] &&
                    exists id :: && id in h.events && h.events[id].key == key && h.events[id].ended.None?
                                 && h'.events == h.events[id := h.events[id].(ended := Some(now.Floor))]
               else h'.log == judged && h'.events == h.events
  {
    var h := Run(EMPTY, ops);
    RunKeeps(EMPTY, ops);
    RunSnoc(EMPTY, ops, DoStep(key, bad, value, now, quiet));
    assert KeyOk(h, key);
    OutstandingAppend(h.log, Judged(key, false, now), key);
    OutstandingAppend(h.log + [Judged(key, false, now)], if quiet then Silenced(key) else Resolved(key), key);
    if Outstanding(h.log, key) {
      var id := h.state[key].event.value;
      assert id in h.events && h.events[id].key == key && h.events[id].ended.None?;
    }
  }

  /** A row never changes but to end, once, and only old ended rows go. */
  lemma RowsOnlyEnd(h: Hub, op: Op, id: int)
    requires Inv(h) && id in h.events
    ensures var h', row := Do(h, op), h.events[id];
            if id in h'.events
            then h'.events[id] == row || (row.ended.None? && h'.events[id] == row.(ended := h'.events[id].ended))
            else op.DoPrune? && row.ended.Some? && row.ended.value < op.cutoff
    ensures op.DoPrune? && h.events[id].ended.Some? && h.events[id].ended.value < op.cutoff ==> id !in Do(h, op).events
  {
    if op.DoStep? {
      assert KeyOk(h, op.key);
    }
  }

  /** A restart loads exactly the open rows, as they stand, and adds the default rules that are missing. */
  lemma RestartReloads(ops: seq<Op>, k: Key)
    ensures var h, h' := Run(EMPTY, ops), Run(EMPTY, ops + [DoRestart]);
            && h'.events == h.events
            && (k in h'.state <==> exists id :: OpenRow(h.events, id) && h.events[id].key == k)
            && (forall id :: OpenRow(h.events, id) && h.events[id].key == k ==>
                  h'.state[k] == Track(h.events[id].started as real, Some(id), h.events[id].value))
            && (forall kind :: kind in h.rules ==> kind in h'.rules && h'.rules[kind] == h.rules[kind])
            && (forall kind :: kind in DEFAULT_RULES && kind !in h.rules ==>
                  kind in h'.rules && h'.rules[kind] == DEFAULT_RULES[kind])
  {
    var h := Run(EMPTY, ops);
    RunKeeps(EMPTY, ops);
    RunSnoc(EMPTY, ops, DoRestart);
    forall id | OpenRow(h.events, id) && h.events[id].key == k
      ensures k in OpenKeys(h.events) && OpenIdOf(h.events, k) == id
    {
      OpenKeysHas(h.events, id);
      UniqueOpenRow(h, id, OpenIdOf(h.events, k));
    }
  }
}
