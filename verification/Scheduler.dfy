/** The scheduler of backup plans: which runs are started, and when (`tick`, `start`, `recover` and the plan
    editing of hub/icsd_hub/backups.py).

    The run itself is modelled elsewhere; here it ends with a state, and some time later the event loop
    calls back to drop its task.
 */
module Scheduler {
  import opened Schedule
  import Timer

  const MAX_PARALLEL := 2

  /** `next` is in seconds. */
  datatype Plan = Plan(every: int, start: int, enabled: bool, next: int)

  datatype RunState = Running | Done | Failed

  datatype Run = Run(plan: int, state: RunState)

  datatype Answer = Started(run: nat) | AlreadyRunning | NoSuchPlan

  predicate Due(p: Plan, now: int) {
    p.enabled && p.next * SECOND <= now
  }

  /** What a tick does to plan `p`, with the plans of `todo` still to be looked at.  Runs going on are not
      touched; a run is started only for a plan that is due and online, whose next time is then computed
      from now; a due plan is left only because it is running, its server is not online, or as many runs
      as allowed are going on. */
  ghost predicate Ticked(before: map<int, Plan>, tasks: map<int, nat>, plans: map<int, Plan>, running: map<int, nat>,
                         todo: set<int>, now: int, online: set<int>, p: int)
  {
    && (p in tasks ==> p in running && running[p] == tasks[p])
    && (p in running && p !in tasks ==>
          && p in before && p in plans && p !in todo && Due(before[p], now) && p in online
          && plans[p] == before[p].(next := plans[p].next)
          && plans[p].next * SECOND == Next(plans[p].every, plans[p].start, now))
    && (p in before && p in plans && (p in tasks || p !in running) ==> plans[p] == before[p])
    && (p in before && p !in todo && p !in running && Due(before[p], now) && p in online ==> |running| >= MAX_PARALLEL)
  }

  ghost predicate AllTicked(before: map<int, Plan>, tasks: map<int, nat>, plans: map<int, Plan>,
                            running: map<int, nat>, todo: set<int>, now: int, online: set<int>)
  {
    forall p :: Ticked(before, tasks, plans, running, todo, now, online, p)
  }

  lemma TickStarts(plans: map<int, Plan>, running: map<int, nat>, now: int, online: set<int>)
    ensures AllTicked(plans, running, plans, running, (set p | p in plans && Due(plans[p], now)), now, online)
  {
  }

  lemma TickLooksAt(before: map<int, Plan>, tasks: map<int, nat>, plans: map<int, Plan>, running: map<int, nat>,
                    todo: set<int>, now: int, online: set<int>, p: int)
    requires AllTicked(before, tasks, plans, running, todo, now, online) && p in todo && p in before && p in plans
    ensures p !in running ==> plans[p] == before[p] && p !in tasks
  {
    assert Ticked(before, tasks, plans, running, todo, now, online, p);
  }

  lemma TickStarted(before: map<int, Plan>, tasks: map<int, nat>, mid: map<int, Plan>, busy: map<int, nat>,
                    plans: map<int, Plan>, running: map<int, nat>, todo: set<int>, now: int, online: set<int>, p: int)
    requires AllTicked(before, tasks, mid, busy, todo, now, online)
    requires p in before && p in mid && p in todo && p in online && p !in busy && Due(before[p], now)
    requires p in plans && plans == mid[p := mid[p].(next := plans[p].next)]
    requires plans[p].next * SECOND == Next(plans[p].every, plans[p].start, now)
    requires p in running && running == busy[p := running[p]]
    ensures AllTicked(before, tasks, plans, running, todo - {p}, now, online)
  {
    forall q ensures Ticked(before, tasks, plans, running, todo - {p}, now, online, q) {
      assert Ticked(before, tasks, mid, busy, todo, now, online, q);
      assert Ticked(before, tasks, mid, busy, todo, now, online, p);
    }
  }

  lemma TickPassed(before: map<int, Plan>, tasks: map<int, nat>, plans: map<int, Plan>, running: map<int, nat>,
                   todo: set<int>, now: int, online: set<int>, p: int)
    requires AllTicked(before, tasks, plans, running, todo, now, online)
    requires p in running || |running| >= MAX_PARALLEL || p !in online
    ensures AllTicked(before, tasks, plans, running, todo - {p}, now, online)
  {
    forall q ensures Ticked(before, tasks, plans, running, todo - {p}, now, online, q) {
      assert Ticked(before, tasks, plans, running, todo, now, online, q);
    }
  }

  /** What a whole tick has done, spelled out in the terms of the rows: a plan that was enabled and whose time, in
      seconds, had come, with its server online and no run going on, is running now unless the slots are full; a
      plan that was off, or whose time had not come, is as it was. */
  lemma TickMeans(before: map<int, Plan>, tasks: map<int, nat>, plans: map<int, Plan>, running: map<int, nat>,
                  now: int, online: set<int>)
    requires AllTicked(before, tasks, plans, running, {}, now, online) && plans.Keys == before.Keys
    ensures forall p :: p in before && before[p].enabled && before[p].next * 1_000_000 <= now && p in online ==>
              p in running || |running| >= 2
    ensures forall p :: p in before && (!before[p].enabled || before[p].next * 1_000_000 > now) ==>
              plans[p] == before[p] && (p in running <==> p in tasks)
    ensures forall p :: p in running && p !in tasks ==>
              p in before && before[p].enabled && before[p].next * 1_000_000 <= now && p in online
  {
    forall p
      ensures p in before && before[p].enabled && before[p].next * 1_000_000 <= now && p in online ==>
                p in running || |running| >= 2
      ensures p in before && (!before[p].enabled || before[p].next * 1_000_000 > now) ==>
                plans[p] == before[p] && (p in running <==> p in tasks)
      ensures p in running && p !in tasks ==>
                p in before && before[p].enabled && before[p].next * 1_000_000 <= now && p in online
    {
      assert Ticked(before, tasks, plans, running, {}, now, online, p);
    }
  }

  function OpsIn(log: map<int, seq<Timer.Op>>, pid: int): seq<Timer.Op> {
    if pid in log then log[pid] else []
  }

  /** The timers of the plans started fired once; the others did not. */
  ghost predicate Logged(was: map<int, seq<Timer.Op>>, log: map<int, seq<Timer.Op>>, tasks: map<int, nat>,
                         running: map<int, nat>, now: int, p: int)
  {
    OpsIn(log, p) == if p in running && p !in tasks then OpsIn(was, p) + [Timer.Fire(now)] else OpsIn(was, p)
  }

  ghost predicate AllLogged(was: map<int, seq<Timer.Op>>, log: map<int, seq<Timer.Op>>, tasks: map<int, nat>,
                            running: map<int, nat>, now: int)
  {
    forall p :: Logged(was, log, tasks, running, now, p)
  }

  lemma LoggedStarted(was: map<int, seq<Timer.Op>>, mid: map<int, seq<Timer.Op>>, log: map<int, seq<Timer.Op>>,
                      tasks: map<int, nat>, busy: map<int, nat>, running: map<int, nat>, now: int, p: int)
    requires AllLogged(was, mid, tasks, busy, now) && p !in busy && p !in tasks
    requires log == mid[p := OpsIn(mid, p) + [Timer.Fire(now)]] && p in running && running == busy[p := running[p]]
    ensures AllLogged(was, log, tasks, running, now)
  {
    forall q ensures Logged(was, log, tasks, running, now, q) {
      assert Logged(was, mid, tasks, busy, now, q) && Logged(was, mid, tasks, busy, now, p);
    }
  }

  class Scheduler {
    var plans: map<int, Plan>
    var runs: seq<Run>
    /** The live task of a plan, by the row of its run. */
    var running: map<int, nat>

    /** What happened to each plan id, as its timer sees it. */
    ghost var log: map<int, seq<Timer.Op>>

    ghost function OpsOf(pid: int): seq<Timer.Op>
      reads this`log
    {
      OpsIn(log, pid)
    }

    /** The starts the clock made under a plan id. */
    ghost function Past(pid: int): seq<Timer.Start>
      reads this`log
    {
      Timer.Run(OpsOf(pid)).past
    }

    /** A row says "running" only while its plan has a task, and the task is that run's. */
    ghost predicate RowOk(r: nat)
      reads this`runs, this`running
    {
      r < |runs| && runs[r].state.Running? ==> runs[r].plan in running && running[runs[r].plan] == r
    }

    ghost predicate RunsOk()
      reads this`runs, this`running
    {
      && (forall p :: p in running ==> running[p] < |runs| && runs[running[p]].plan == p)
      && (forall r: nat :: RowOk(r))
    }

    /** A plan's row is what its timer gives; without a row the timer is off. */
    ghost predicate PlanOk(pid: int)
      reads this`plans, this`log
    {
      var t := Timer.Run(OpsOf(pid));
      if pid in plans
      then plans[pid] == Plan(t.every, t.start, t.armed, plans[pid].next) && plans[pid].next * SECOND == t.next
      else !t.armed
    }

    ghost predicate PlansOk()
      reads this`plans, this`log
    {
      forall pid :: PlanOk(pid)
    }

    ghost predicate Valid()
      reads this
    {
      RunsOk() && PlansOk()
    }

    constructor ()
      ensures Valid() && plans == map[] && runs == [] && running == map[] && log == map[]
    {
      plans, runs, running := map[], [], map[];
      log := map[];
    }

    /** At most one run of a plan is in progress. */
    lemma OneRunPerPlan(r: nat, q: nat)
      requires Valid() && r < |runs| && q < |runs| && runs[r].plan == runs[q].plan
      requires runs[r].state.Running? && runs[q].state.Running?
      ensures r == q
    {
      assert RowOk(r) && RowOk(q);
    }

    /** No due time of a plan is answered twice, and starts that were missed are made up for once, as long as no
        edit makes the plan due at or before a start it already made. */
    lemma DueOnce(pid: int, i: nat, j: nat)
      requires Valid() && i < j < |Past(pid)| && Timer.AllFit(OpsOf(pid))
      ensures Past(pid)[i].due < Past(pid)[j].due && Past(pid)[i].at < Past(pid)[j].at
    {
      Timer.RunSure(OpsOf(pid));
    }

    /** That is the exact condition: it is the one under which, at no point so far, the clock alone could have
        brought the starts out of order. */
    lemma DueOnceIff(pid: int)
      ensures Timer.AllFit(OpsOf(pid)) <==> Timer.AlwaysOnce(OpsOf(pid))
    {
      Timer.AlwaysOnceIff(OpsOf(pid));
    }

    /** The log grows by one operation on `pid`, which its row already reflects. */
    ghost method Did(pid: int, op: Timer.Op)
      requires forall p :: p != pid ==> PlanOk(p)
      requires var t := Timer.Do(Timer.Run(OpsOf(pid)), op);
               if pid in plans
               then plans[pid] == Plan(t.every, t.start, t.armed, plans[pid].next) && plans[pid].next * SECOND == t.next
               else !t.armed
      modifies this`log
      ensures PlansOk() && log == old(log)[pid := old(OpsOf(pid)) + [op]]
      ensures Past(pid) == Timer.Do(Timer.Run(old(OpsOf(pid))), op).past
    {
      var ops := OpsOf(pid);
      assert (ops + [op])[..|ops|] == ops;
      log := log[pid := ops + [op]];
      forall p ensures PlanOk(p) {
        assert p != pid ==> old(PlanOk(p));
      }
    }

    /** Creates or edits a plan (`pid` is the new or the edited row).  From here on its starts stay in order,
        whatever the clock does, if and only if all its starts came before the time it is now due. */
    method Save(pid: int, every: int, start: int, enabled: bool, now: int)
      requires Valid()
      modifies this`plans, this`log
      ensures Valid()
      ensures pid in plans && plans == old(plans)[pid := Plan(every, start, enabled, plans[pid].next)]
      ensures plans[pid].next * SECOND == Next(every, start, now)
      ensures log == old(log)[pid := old(OpsOf(pid)) + [Timer.Save(every, start, enabled, now)]]
      ensures Past(pid) == old(Past(pid))
      ensures Timer.OnceWhateverTheClock(Timer.Run(OpsOf(pid))) <==>
                && Timer.OnceEach(old(Past(pid)))
                && (enabled ==> Timer.AllBefore(old(Past(pid)), Next(every, start, now)))
    {
      var next := NextRun(every, start, now);
      plans := plans[pid := Plan(every, start, enabled, next)];
      forall p | p != pid ensures PlanOk(p) { assert old(PlanOk(p)); }
      Did(pid, Timer.Save(every, start, enabled, now));
      Timer.RunMade(OpsOf(pid));
      Timer.OnceIffSure(Timer.Run(OpsOf(pid)));
      assert (old(OpsOf(pid)) + [Timer.Save(every, start, enabled, now)])[..|old(OpsOf(pid))|] == old(OpsOf(pid));
    }

    method Delete(pid: int)
      requires Valid()
      modifies this`plans, this`log
      ensures Valid() && plans == old(plans) - {pid} && Past(pid) == old(Past(pid))
      ensures log == old(log)[pid := old(OpsOf(pid)) + [Timer.Stop]]
    {
      plans := plans - {pid};
      forall p | p != pid ensures PlanOk(p) { assert old(PlanOk(p)); }
      Did(pid, Timer.Stop);
    }

    method Begin(pid: int) returns (r: Answer)
      requires Valid()
      modifies this`runs, this`running
      ensures Valid()
      ensures r.AlreadyRunning? <==> pid in old(running)
      ensures r.NoSuchPlan? <==> pid !in old(running) && pid !in plans
      ensures r.Started? ==> r.run == |old(runs)| && runs == old(runs) + [Run(pid, Running)]
                              && running == old(running)[pid := r.run]
      ensures !r.Started? ==> runs == old(runs) && running == old(running)
    {
      if pid in running {
        return AlreadyRunning;
      }
      if pid !in plans {
        return NoSuchPlan;
      }
      r := Started(|runs|);
      running := running[pid := |runs|];
      runs := runs + [Run(pid, Running)];
      forall r: nat ensures RowOk(r) { assert old(RowOk(r)); }
    }

    /** The clock finds a plan due: the due time moves on and a run starts. */
    method BeginDue(pid: int, now: int)
      requires Valid() && pid in plans && pid !in running && Due(plans[pid], now)
      modifies this`plans, this`runs, this`running, this`log
      ensures Valid()
      ensures pid in plans && plans == old(plans)[pid := old(plans)[pid].(next := plans[pid].next)]
      ensures plans[pid].next * SECOND == Next(plans[pid].every, plans[pid].start, now)
      ensures running == old(running)[pid := |old(runs)|] && runs == old(runs) + [Run(pid, Running)]
      ensures log == old(log)[pid := old(OpsOf(pid)) + [Timer.Fire(now)]]
      ensures Past(pid) == old(Past(pid)) + [Timer.Start(old(plans)[pid].next * SECOND, now)]
    {
      var p := plans[pid];
      assert PlanOk(pid);
      var next := NextRun(p.every, p.start, now);
      plans := plans[pid := p.(next := next)];
      forall q | q != pid ensures PlanOk(q) { assert old(PlanOk(q)); }
      Did(pid, Timer.Fire(now));
      var _ := Begin(pid);
    }

    /** Part of the way through a tick, with the plans of `todo` still to be looked at. */
    ghost predicate Ticking(before: map<int, Plan>, tasks: map<int, nat>, was: map<int, seq<Timer.Op>>,
                            todo: set<int>, now: int, online: set<int>)
      reads this
    {
      && Valid() && plans.Keys == before.Keys && todo <= before.Keys
      && |running| <= (if |tasks| < MAX_PARALLEL then MAX_PARALLEL else |tasks|)
      && AllTicked(before, tasks, plans, running, todo, now, online) && AllLogged(was, log, tasks, running, now)
    }

    /** The body of the loop. */
    method Consider(p: int, now: int, online: set<int>, ghost before: map<int, Plan>, ghost tasks: map<int, nat>,
                    ghost was: map<int, seq<Timer.Op>>, ghost todo: set<int>)
      requires Ticking(before, tasks, was, todo, now, online) && p in todo && Due(before[p], now)
      modifies this`plans, this`runs, this`running, this`log
      ensures Ticking(before, tasks, was, todo - {p}, now, online)
    {
      TickLooksAt(before, tasks, plans, running, todo, now, online, p);
      if p !in running && |running| < MAX_PARALLEL && p in online {
        BeginDue(p, now);
        TickStarted(before, tasks, old(plans), old(running), plans, running, todo, now, online, p);
        LoggedStarted(was, old(log), log, tasks, old(running), running, now, p);
      } else {
        TickPassed(before, tasks, plans, running, todo, now, online, p);
      }
    }

    /** Starts due plans, in whatever order the table gives them. */
    method Tick(now: int, online: set<int>)
      requires Valid()
      modifies this`plans, this`runs, this`running, this`log
      ensures Valid() && plans.Keys == old(plans).Keys
      ensures |running| <= if |old(running)| < MAX_PARALLEL then MAX_PARALLEL else |old(running)|
      ensures AllTicked(old(plans), old(running), plans, running, {}, now, online)
      ensures AllLogged(old(log), log, old(running), running, now)
      // every plan whose time has come is running, unless it is not online or the slots are full
      ensures forall p :: p in old(plans) && old(plans)[p].enabled && p in online ==>
                old(plans)[p].next * 1_000_000 <= now ==> p in running || |running| >= 2
      // and no other plan is touched
      ensures forall p :: p in old(plans) && (!old(plans)[p].enabled || old(plans)[p].next * 1_000_000 > now) ==>
                plans[p] == old(plans)[p] && (p in running <==> p in old(running))
    {
      ghost var before, tasks, was := plans, running, log;
      var todo := set p | p in plans && Due(plans[p], now);
      TickStarts(plans, running, now, online);
      while exists p :: p in todo
        invariant Ticking(before, tasks, was, todo, now, online)
        invariant forall p :: p in todo ==> Due(before[p], now)
        decreases |todo|
      {
        var p :| p in todo;
        Consider(p, now, online, before, tasks, was, todo);
        todo := todo - {p};
      }
      assert todo == {};
      TickMeans(before, tasks, plans, running, now, online);
    }

    /** A run records its end; its task is still there. */
    method Finish(r: nat, ok: bool)
      requires Valid() && r < |runs| && runs[r].state.Running?
      modifies this`runs
      ensures Valid() && runs == old(runs)[r := Run(old(runs)[r].plan, if ok then Done else Failed)]
    {
      runs := runs[r := runs[r].(state := if ok then Done else Failed)];
      forall r: nat ensures RowOk(r) { assert old(RowOk(r)); }
    }

    /** The callback of a task whose run has ended. */
    method Drop(pid: int)
      requires Valid() && pid in running && !runs[running[pid]].state.Running?
      modifies this`running
      ensures Valid() && running == old(running) - {pid}
    {
      running := running - {pid};
      forall r: nat ensures RowOk(r) { assert old(RowOk(r)); }
    }

    /** The hub stops at any moment, losing its tasks, and comes up again with `recover`. */
    method Restart()
      requires Valid()
      modifies this`runs, this`running
      ensures Valid() && running == map[] && |runs| == |old(runs)|
      ensures forall r :: 0 <= r < |runs| ==>
                runs[r] == if old(runs)[r].state.Running? then Run(old(runs)[r].plan, Failed) else old(runs)[r]
    {
      running := map[];
      var i := 0;
      while i < |runs|
        invariant 0 <= i <= |runs| == |old(runs)| && running == map[]
        invariant forall r :: 0 <= r < i ==>
                    runs[r] == if old(runs)[r].state.Running? then Run(old(runs)[r].plan, Failed) else old(runs)[r]
        invariant forall r :: i <= r < |runs| ==> runs[r] == old(runs)[r]
      {
        if runs[i].state.Running? {
          runs := runs[i := runs[i].(state := Failed)];
        }
        i := i + 1;
      }
    }
  }
}
