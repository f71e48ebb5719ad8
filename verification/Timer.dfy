/** One plan seen by the clock (hub/icsd_hub/backups.py): it is saved, found due and started, or deleted.

    Times are microseconds.  The clock is whatever it is: the readings of one operation and the next are in
    no order, since an administrator or a time service may set it back.
 */
module Timer {
  import opened Schedule

  /** A start: the due time it answered and the moment. */
  datatype Start = Start(due: int, at: int)

  /** `armed` plans are enabled; `next` is when the plan is due and `past` all starts made under its id. */
  datatype Timer = Timer(every: int, start: int, armed: bool, next: int, past: seq<Start>)

  const NEW := Timer(0, 0, false, 0, [])

  datatype Op =
    | Save(every: int, start: int, enabled: bool, now: int)
    | Fire(now: int)
    | Stop

  function Do(t: Timer, op: Op): Timer {
    match op
    case Save(every, start, enabled, now) => Timer(every, start, enabled, Next(every, start, now), t.past)
    case Fire(now) =>
      if t.armed && t.next <= now
      then t.(next := Next(t.every, t.start, now), past := t.past + [Start(t.next, now)]) else t
    case Stop => t.(armed := false)
  }

  function Run(ops: seq<Op>): Timer {
    if ops == [] then NEW else Do(Run(ops[..|ops| - 1]), ops[|ops| - 1])
  }

  /** The clock goes on, with these readings and no edit. */
  function FireAll(t: Timer, nows: seq<int>): Timer {
    if nows == [] then t else Do(FireAll(t, nows[..|nows| - 1]), Fire(nows[|nows| - 1]))
  }

  // ----- What is wanted -----

  /** Every start answers a later due time than the one before, and comes later. */
  ghost predicate OnceEach(past: seq<Start>) {
    forall i, j :: 0 <= i < j < |past| ==> past[i].due < past[j].due && past[i].at < past[j].at
  }

  ghost predicate AllBefore(past: seq<Start>, t: int) {
    forall i :: 0 <= i < |past| ==> past[i].at < t
  }

  /** No start answers a due time to come. */
  ghost predicate Made(past: seq<Start>) {
    forall i :: 0 <= i < |past| ==> past[i].due <= past[i].at
  }

  /** Nothing can go wrong until the next edit. */
  ghost predicate Sure(t: Timer) {
    OnceEach(t.past) && (t.armed ==> AllBefore(t.past, t.next))
  }

  ghost predicate OnceWhateverTheClock(t: Timer) {
    forall nows :: OnceEach(FireAll(t, nows).past)
  }

  lemma FireSure(t: Timer, now: int)
    requires Sure(t) && Made(t.past)
    ensures Sure(Do(t, Fire(now))) && Made(Do(t, Fire(now)).past)
  {
    if t.armed && t.next <= now {
      NextGap(t.every, t.start, now);
    }
  }

  lemma {:induction false} FireAllSure(t: Timer, nows: seq<int>)
    requires Sure(t) && Made(t.past)
    ensures Sure(FireAll(t, nows)) && Made(FireAll(t, nows).past)
  {
    if nows == [] {
    } else {
      FireAllSure(t, nows[..|nows| - 1]);
      FireSure(FireAll(t, nows[..|nows| - 1]), nows[|nows| - 1]);
    }
  }

  /** Without edits, whatever the clock does, starts stay in order if and only if they are so far and all came
      before the time the plan is due next. */
  lemma OnceIffSure(t: Timer)
    requires Made(t.past)
    ensures OnceWhateverTheClock(t) <==> Sure(t)
  {
    if Sure(t) {
      forall nows ensures OnceEach(FireAll(t, nows).past) {
        FireAllSure(t, nows);
      }
    } else if OnceEach(t.past) {
      var i :| 0 <= i < |t.past| && t.past[i].at >= t.next;
      Repeats(t, i);
    } else {
      assert FireAll(t, []) == t;
    }
  }

  /** A clock that reads again what it read at an earlier start, at or after the time due, starts the plan again. */
  lemma Repeats(t: Timer, i: nat)
    requires t.armed && i < |t.past| && t.past[i].at >= t.next
    ensures !OnceEach(FireAll(t, [t.past[i].at]).past)
  {
    var now := t.past[i].at;
    assert [now][..0] == [];
    assert FireAll(t, [now][..0]) == t;
    var past := FireAll(t, [now]).past;
    assert past == t.past + [Start(t.next, now)];
    assert past[i].at == past[|t.past|].at;
  }

  // ----- Whole runs -----

  /** An edit fits if every start so far came before the time it makes the plan due. */
  ghost predicate Fits(t: Timer, op: Op) {
    op.Save? && op.enabled ==> AllBefore(t.past, Next(op.every, op.start, op.now))
  }

  ghost predicate AllFit(ops: seq<Op>) {
    forall k :: 0 <= k < |ops| ==> Fits(Run(ops[..k]), ops[k])
  }

  lemma {:induction false} RunMade(ops: seq<Op>)
    ensures Made(Run(ops).past)
  {
    if ops == [] {
    } else {
      RunMade(ops[..|ops| - 1]);
    }
  }

  lemma {:induction false} RunSure(ops: seq<Op>)
    requires AllFit(ops)
    ensures Sure(Run(ops))
  {
    if ops == [] {
    } else {
      var init := ops[..|ops| - 1];
      forall k | 0 <= k < |init| ensures Fits(Run(init[..k]), init[k]) {
        assert init[..k] == ops[..k];
      }
      RunSure(init);
      RunMade(init);
      assert Fits(Run(ops[..|ops| - 1]), ops[|ops| - 1]);
      if ops[|ops| - 1].Fire? {
        FireSure(Run(init), ops[|ops| - 1].now);
      }
    }
  }

  /** At whatever point a run is cut and left to the clock, starts stay in order. */
  ghost predicate AlwaysOnce(ops: seq<Op>) {
    forall k :: 0 <= k <= |ops| ==> OnceWhateverTheClock(Run(ops[..k]))
  }

  /** Starts of a plan stay in order at every point of a run, whatever the clock does next, if and only if every
      edit fits. */
  lemma AlwaysOnceIff(ops: seq<Op>)
    ensures AlwaysOnce(ops) <==> AllFit(ops)
  {
    if AllFit(ops) {
      forall k | 0 <= k <= |ops| ensures OnceWhateverTheClock(Run(ops[..k])) {
        PrefixFits(ops, k);
        RunSure(ops[..k]);
        RunMade(ops[..k]);
        OnceIffSure(Run(ops[..k]));
      }
    } else {
      var k :| 0 <= k < |ops| && !Fits(Run(ops[..k]), ops[k]);
      assert ops[..k + 1][..k] == ops[..k];
      assert Run(ops[..k + 1]) == Do(Run(ops[..k]), ops[k]);
      RunMade(ops[..k + 1]);
      OnceIffSure(Run(ops[..k + 1]));
    }
  }

  lemma PrefixFits(ops: seq<Op>, k: nat)
    requires AllFit(ops) && k <= |ops|
    ensures AllFit(ops[..k])
  {
    forall j | 0 <= j < k ensures Fits(Run(ops[..k][..j]), ops[..k][j]) {
      assert ops[..k][..j] == ops[..j];
    }
  }

  /** No edit is made at an earlier clock reading than a start before it. */
  predicate Forward(ops: seq<Op>) {
    forall i, j :: 0 <= i < j < |ops| && ops[i].Fire? && ops[j].Save? ==> ops[i].now <= ops[j].now
  }

  lemma {:induction false} StartWasFired(ops: seq<Op>, i: nat) returns (k: nat)
    requires i < |Run(ops).past|
    ensures k < |ops| && ops[k] == Fire(Run(ops).past[i].at)
  {
    k := 0;
    if ops == [] {
    } else {
      var init := ops[..|ops| - 1];
      if i < |Run(init).past| {
        k := StartWasFired(init, i);
      } else {
        k := |ops| - 1;
      }
    }
  }

  /** In particular a clock that never goes back is enough. */
  lemma ForwardFits(ops: seq<Op>)
    requires Forward(ops)
    ensures AllFit(ops)
  {
    forall k | 0 <= k < |ops| ensures Fits(Run(ops[..k]), ops[k]) {
      if ops[k].Save? {
        NextGap(ops[k].every, ops[k].start, ops[k].now);
        forall i | 0 <= i < |Run(ops[..k]).past|
          ensures Run(ops[..k]).past[i].at < Next(ops[k].every, ops[k].start, ops[k].now)
        {
          var j := StartWasFired(ops[..k], i);
          assert ops[j] == ops[..k][j];
        }
      }
    }
  }

  lemma RunMore(ops: seq<Op>, op: Op)
    ensures Run(ops + [op]) == Do(Run(ops), op)
  {
    assert (ops + [op])[..|ops|] == ops;
  }

  /** A family of runs in which it fails: any plan that is saved, starts when it is due, and is saved again after
      the clock was set back to the first saving, answers the same due time twice. */
  lemma ClockBackAnswersTwice(every: int, start: int, now: int)
    ensures var due := Next(every, start, now);
            var save := Save(every, start, true, now);
            Run([] + [save] + [Fire(due)] + [save] + [Fire(due)]).past == [Start(due, due), Start(due, due)]
  {
    var due, save := Next(every, start, now), Save(every, start, true, now);
    RunMore([], save);
    RunMore([] + [save], Fire(due));
    assert Run([] + [save] + [Fire(due)]).past == [] + [Start(due, due)];
    RunMore([] + [save] + [Fire(due)], save);
    RunMore([] + [save] + [Fire(due)] + [save], Fire(due));
  }
}
