/** The brute-force limit: failure rows, the sliding window over them, and their pruning
    (hub/icsd_hub/auth.py, and the enrolment limit of hub/icsd_hub/agents.py).

    `login` reads the clock twice, to count and to record, so an attempt carries both readings.
 */
module LoginLimit {

  const WINDOW := 900
  const MAX_IP := 10
  const MAX_USER := 8
  const MAX_ENROLL := 10
  const ENROLL_USER := "~enroll"

  /** A failure row.  `login` says which operation wrote it; no decision looks at it. */
  datatype Fail = Fail(ip: string, user: string, ts: int, login: bool)

  datatype Sel =
    | ByIp(ip: string)
    | ByUser(user: string)
    | ByIpUser(ip: string, user: string)
    | Made(ip: string, login: bool)

  predicate Matches(sel: Sel, f: Fail) {
    match sel
    case ByIp(ip) => f.ip == ip
    case ByUser(user) => f.user == user
    case ByIpUser(ip, user) => f.ip == ip && f.user == user
    case Made(ip, login) => f.ip == ip && f.login == login
  }

  /** How many chosen rows are later than `since`. */
  function Count(log: seq<Fail>, sel: Sel, since: int): nat {
    if log == [] then 0
    else
      var f := log[|log| - 1];
      Count(log[..|log| - 1], sel, since) + if Matches(sel, f) && f.ts > since then 1 else 0
  }

  predicate TooMany(log: seq<Fail>, ip: string, user: string, now: int) {
    Count(log, ByIp(ip), now - WINDOW) >= MAX_IP || Count(log, ByUser(user), now - WINDOW) >= MAX_USER
  }

  /** The rows a count is about, by their place. */
  function Rows(log: seq<Fail>, sel: Sel, since: int): set<int> {
    set i | 0 <= i < |log| && Matches(sel, log[i]) && log[i].ts > since
  }

  lemma RowsOfLast(log: seq<Fail>, sel: Sel, since: int)
    requires log != []
    ensures var init, f := log[..|log| - 1], log[|log| - 1];
            |Rows(log, sel, since)| == |Rows(init, sel, since)| + if Matches(sel, f) && f.ts > since then 1 else 0
  {
    var init, last := log[..|log| - 1], |log| - 1;
    var rows, before := Rows(log, sel, since), Rows(init, sel, since);
    forall i | i != last ensures i in rows <==> i in before {
      assert 0 <= i < last ==> log[i] == init[i];
    }
    assert last !in before;
    if Matches(sel, log[last]) && log[last].ts > since {
      assert rows == before + {last};
    } else {
      assert rows == before;
    }
  }

  lemma {:induction false} CountIsSize(log: seq<Fail>, sel: Sel, since: int)
    ensures Count(log, sel, since) == |Rows(log, sel, since)|
  {
    if log == [] {
      assert Rows(log, sel, since) == {};
    } else {
      CountIsSize(log[..|log| - 1], sel, since);
      RowsOfLast(log, sel, since);
    }
  }

  /** Exactly when an attempt is refused: ten failures of the address or eight of the name in the last 900 seconds. */
  lemma TooManyIff(log: seq<Fail>, ip: string, user: string, now: int)
    ensures TooMany(log, ip, user, now) <==>
              || |set i | 0 <= i < |log| && log[i].ip == ip && log[i].ts > now - 900| >= 10
              || |set i | 0 <= i < |log| && log[i].user == user && log[i].ts > now - 900| >= 8
  {
    CountIsSize(log, ByIp(ip), now - 900);
    CountIsSize(log, ByUser(user), now - 900);
    assert Rows(log, ByIp(ip), now - 900) == set i | 0 <= i < |log| && log[i].ip == ip && log[i].ts > now - 900;
    assert Rows(log, ByUser(user), now - 900) == set i | 0 <= i < |log| && log[i].user == user && log[i].ts > now - 900;
  }

  lemma TooManyEnrollsIff(log: seq<Fail>, ip: string, now: int)
    ensures TooManyEnrolls(log, ip, now) <==>
              |set i | 0 <= i < |log| && log[i].ip == ip && log[i].user == "~enroll" && log[i].ts > now - 900| >= 10
  {
    CountIsSize(log, ByIpUser(ip, ENROLL_USER), now - 900);
    assert Rows(log, ByIpUser(ip, ENROLL_USER), now - 900) ==
           set i | 0 <= i < |log| && log[i].ip == ip && log[i].user == "~enroll" && log[i].ts > now - 900;
  }

  predicate TooManyEnrolls(log: seq<Fail>, ip: string, now: int) {
    Count(log, ByIpUser(ip, ENROLL_USER), now - WINDOW) >= MAX_ENROLL
  }

  /** The rows that a deletion of everything earlier than `cutoff` leaves. */
  function Kept(log: seq<Fail>, cutoff: int): seq<Fail> {
    if log == [] then []
    else
      var f := log[|log| - 1];
      Kept(log[..|log| - 1], cutoff) + if f.ts < cutoff then [] else [f]
  }

  /** A deletion takes out rows one by one and leaves the order. */
  lemma {:induction false} KeptConcat(a: seq<Fail>, b: seq<Fail>, cutoff: int)
    ensures Kept(a + b, cutoff) == Kept(a, cutoff) + Kept(b, cutoff)
    ensures forall f: Fail :: Kept([f], cutoff) == if f.ts >= cutoff then [f] else []
  {
    if b == [] {
      assert a + b == a;
    } else {
      assert (a + b)[..|a + b| - 1] == a + b[..|b| - 1];
      KeptConcat(a, b[..|b| - 1], cutoff);
    }
  }

  // ----- Runs -----

  datatype Op =
    | Login(ip: string, user: string, now: int, later: int, bad: bool)
    | Enroll(ip: string, now: int, later: int, bad: bool)
    | Prune(now: int)

  /** `blocked` records what each attempt was told, `written` every row ever inserted. */
  datatype State = State(log: seq<Fail>, written: seq<Fail>, blocked: seq<bool>)

  const START := State([], [], [])

  function Record(s: State, f: Fail): State {
    s.(log := s.log + [f], written := s.written + [f])
  }

  function Answer(s: State, blocked: bool): State {
    s.(blocked := s.blocked + [blocked])
  }

  /** One operation; the reference history takes no part in pruning. */
  function Do(s: State, op: Op, pruning: bool): State {
    match op
    case Login(ip, user, now, later, bad) =>
      if TooMany(s.log, ip, user, now) then Answer(s, true)
      else Answer(if bad then Record(s, Fail(ip, user, later, true)) else s, false)
    case Enroll(ip, now, later, bad) =>
      if TooManyEnrolls(s.log, ip, now) then Answer(s, true)
      else Answer(if bad then Record(s, Fail(ip, ENROLL_USER, later, false)) else s, false)
    case Prune(now) => if pruning then s.(log := Kept(s.log, now - WINDOW)) else s
  }

  function Run(ops: seq<Op>, pruning: bool): State {
    if ops == [] then START else Do(Run(ops[..|ops| - 1], pruning), ops[|ops| - 1], pruning)
  }

  function Ends(op: Op): int {
    match op
    case Login(_, _, now, later, _) => later
    case Enroll(_, now, later, _) => later
    case Prune(now) => now
  }

  /** The clock never goes back, within an operation or from one to the next. */
  predicate Timed(ops: seq<Op>) {
    && (forall i :: 0 <= i < |ops| ==> ops[i].now <= Ends(ops[i]))
    && (forall i, j :: 0 <= i < j < |ops| ==> Ends(ops[i]) <= ops[j].now)
  }

  // ----- Pruning changes no decision -----

  lemma KeptSnoc(log: seq<Fail>, f: Fail, cutoff: int)
    ensures Kept(log + [f], cutoff) == Kept(log, cutoff) + if f.ts < cutoff then [] else [f]
  {
    assert (log + [f])[..|log|] == log;
  }

  lemma CountSnoc(log: seq<Fail>, f: Fail, sel: Sel, since: int)
    ensures Count(log + [f], sel, since) == Count(log, sel, since) + if Matches(sel, f) && f.ts > since then 1 else 0
  {
    assert (log + [f])[..|log|] == log;
  }

  lemma {:induction false} KeptCounts(log: seq<Fail>, cutoff: int, sel: Sel, since: int)
    requires cutoff <= since + 1
    ensures Count(Kept(log, cutoff), sel, since) == Count(log, sel, since)
  {
    if log == [] {
    } else {
      var f, init := log[|log| - 1], log[..|log| - 1];
      KeptCounts(init, cutoff, sel, since);
      CountSnoc(Kept(init, cutoff), f, sel, since);
      assert Kept(init, cutoff) + [] == Kept(init, cutoff);
    }
  }

  lemma {:induction false} KeptTwice(log: seq<Fail>, a: int, b: int)
    ensures Kept(Kept(log, a), b) == Kept(log, if a < b then b else a)
  {
    if log == [] {
    } else {
      var f, init := log[|log| - 1], log[..|log| - 1];
      KeptTwice(init, a, b);
      KeptSnoc(Kept(init, a), f, b);
      assert Kept(init, a) + [] == Kept(init, a);
    }
  }

  /** The pruned state is the full one less rows that have left every window still to come. */
  ghost predicate Related(p: State, full: State, cutoff: int) {
    p.log == Kept(full.log, cutoff) && p.written == full.written && p.blocked == full.blocked
  }

  lemma SameAnswers(full: seq<Fail>, cutoff: int, ip: string, user: string, now: int)
    requires cutoff <= now - WINDOW
    ensures TooMany(Kept(full, cutoff), ip, user, now) == TooMany(full, ip, user, now)
    ensures TooManyEnrolls(Kept(full, cutoff), ip, now) == TooManyEnrolls(full, ip, now)
  {
    KeptCounts(full, cutoff, ByIp(ip), now - WINDOW);
    KeptCounts(full, cutoff, ByUser(user), now - WINDOW);
    KeptCounts(full, cutoff, ByIpUser(ip, ENROLL_USER), now - WINDOW);
  }

  lemma RecordRelated(p: State, full: State, cutoff: int, f: Fail)
    requires Related(p, full, cutoff) && cutoff <= f.ts
    ensures Related(Record(p, f), Record(full, f), cutoff)
  {
    KeptSnoc(full.log, f, cutoff);
  }

  lemma DoRelated(p: State, full: State, cutoff: int, op: Op) returns (c: int)
    requires Related(p, full, cutoff) && cutoff <= op.now - WINDOW && op.now <= Ends(op)
    ensures Related(Do(p, op, true), Do(full, op, false), c) && c <= Ends(op) - WINDOW
  {
    c := cutoff;
    match op
    case Login(ip, user, now, later, bad) =>
      SameAnswers(full.log, cutoff, ip, user, now);
      RecordRelated(p, full, cutoff, Fail(ip, user, later, true));
    case Enroll(ip, now, later, bad) =>
      SameAnswers(full.log, cutoff, ip, ENROLL_USER, now);
      RecordRelated(p, full, cutoff, Fail(ip, ENROLL_USER, later, false));
    case Prune(now) =>
      KeptTwice(full.log, cutoff, now - WINDOW);
      c := now - WINDOW;
  }

  lemma {:induction false} RunRelated(ops: seq<Op>, end: int) returns (c: int)
    requires Timed(ops) && forall i :: 0 <= i < |ops| ==> Ends(ops[i]) <= end
    ensures Related(Run(ops, true), Run(ops, false), c) && c <= end - WINDOW
  {
    if ops == [] {
      c := end - WINDOW;
    } else {
      var init, op := ops[..|ops| - 1], ops[|ops| - 1];
      c := RunRelated(init, op.now);
      c := DoRelated(Run(init, true), Run(init, false), c, op);
    }
  }

  /** With a clock that never goes back, deleting old rows, as often and whenever one likes, changes no
      answer to any attempt and no row written: the history that keeps everything gives the same ones. */
  lemma PruningChangesNoAnswer(ops: seq<Op>)
    requires Timed(ops)
    ensures Run(ops, true).blocked == Run(ops, false).blocked
    ensures Run(ops, true).written == Run(ops, false).written
  {
    var end := if ops == [] then 0 else Ends(ops[|ops| - 1]);
    var _ := RunRelated(ops, end);
  }

  // ----- Every window is bounded -----

  /** How many chosen rows lie in the `WINDOW` seconds ending at `t`. */
  function InWindow(log: seq<Fail>, sel: Sel, t: int): nat {
    if log == [] then 0
    else
      var f := log[|log| - 1];
      InWindow(log[..|log| - 1], sel, t) + if Matches(sel, f) && t - WINDOW < f.ts <= t then 1 else 0
  }

  /** A window ending no earlier than the clock holds no more than the count taken there. */
  lemma {:induction false} WindowCounted(log: seq<Fail>, sel: Sel, wider: Sel, now: int, t: int)
    requires now <= t && forall f :: Matches(sel, f) ==> Matches(wider, f)
    ensures InWindow(log, sel, t) <= Count(log, wider, now - WINDOW)
  {
    if log == [] {
    } else {
      WindowCounted(log[..|log| - 1], sel, wider, now, t);
    }
  }

  /** A row counted before being written keeps its window within the limit. */
  lemma WindowSnoc(log: seq<Fail>, f: Fail, sel: Sel, wider: Sel, limit: nat, now: int, t: int)
    requires InWindow(log, sel, t) <= limit && now <= f.ts
    requires Matches(sel, f) ==> Count(log, wider, now - WINDOW) < limit
    requires forall f :: Matches(sel, f) ==> Matches(wider, f)
    ensures InWindow(log + [f], sel, t) <= limit
  {
    assert (log + [f])[..|log|] == log;
    if Matches(sel, f) && f.ts <= t {
      WindowCounted(log, sel, wider, now, t);
    }
  }

  /** The limits of the source: by ordinary username, by address through `login`, by address through
      enrolment. */
  predicate Bounded(sel: Sel, limit: nat) {
    match sel
    case ByUser(user) => user != ENROLL_USER && limit == MAX_USER
    case Made(ip, login) => limit == if login then MAX_IP else MAX_ENROLL
    case _ => false
  }

  /** Rows written by enrolment carry its username. */
  ghost predicate EnrollRows(log: seq<Fail>) {
    forall i :: 0 <= i < |log| && !log[i].login ==> log[i].user == ENROLL_USER
  }

  /** Rows written by enrolment are among those its own count sees. */
  lemma {:induction false} EnrollsCounted(log: seq<Fail>, ip: string, now: int, t: int)
    requires now <= t && EnrollRows(log)
    ensures InWindow(log, Made(ip, false), t) <= Count(log, ByIpUser(ip, ENROLL_USER), now - WINDOW)
  {
    if log == [] {
    } else {
      EnrollsCounted(log[..|log| - 1], ip, now, t);
    }
  }

  lemma LoginBounded(log: seq<Fail>, f: Fail, sel: Sel, limit: nat, now: int, t: int)
    requires Bounded(sel, limit) && InWindow(log, sel, t) <= limit
    requires f.login && now <= f.ts && !TooMany(log, f.ip, f.user, now)
    ensures InWindow(log + [f], sel, t) <= limit
  {
    WindowSnoc(log, f, sel, if sel.ByUser? then sel else ByIp(sel.ip), limit, now, t);
  }

  lemma EnrollBounded(log: seq<Fail>, f: Fail, sel: Sel, limit: nat, now: int, t: int)
    requires Bounded(sel, limit) && InWindow(log, sel, t) <= limit && EnrollRows(log)
    requires !f.login && f.user == ENROLL_USER && now <= f.ts && !TooManyEnrolls(log, f.ip, now)
    ensures InWindow(log + [f], sel, t) <= limit
  {
    assert (log + [f])[..|log|] == log;
    if Matches(sel, f) && f.ts <= t {
      EnrollsCounted(log, f.ip, now, t);
    }
  }

  ghost predicate Within(s: State, sel: Sel, limit: nat, t: int) {
    s.log == s.written && EnrollRows(s.log) && InWindow(s.log, sel, t) <= limit
  }

  lemma RecordWithin(s: State, f: Fail, sel: Sel, limit: nat, now: int, t: int)
    requires Within(s, sel, limit, t) && Bounded(sel, limit) && now <= f.ts
    requires f.login || f.user == ENROLL_USER
    requires if f.login then !TooMany(s.log, f.ip, f.user, now) else !TooManyEnrolls(s.log, f.ip, now)
    ensures Within(Record(s, f), sel, limit, t)
  {
    if f.login {
      LoginBounded(s.log, f, sel, limit, now, t);
    } else {
      EnrollBounded(s.log, f, sel, limit, now, t);
    }
  }

  lemma DoWithin(s: State, op: Op, sel: Sel, limit: nat, t: int)
    requires Within(s, sel, limit, t) && Bounded(sel, limit) && op.now <= Ends(op)
    ensures Within(Do(s, op, false), sel, limit, t)
  {
    match op
    case Login(ip, user, now, later, bad) =>
      if !TooMany(s.log, ip, user, now) {
        RecordWithin(s, Fail(ip, user, later, true), sel, limit, now, t);
      }
    case Enroll(ip, now, later, bad) =>
      if !TooManyEnrolls(s.log, ip, now) {
        RecordWithin(s, Fail(ip, ENROLL_USER, later, false), sel, limit, now, t);
      }
    case Prune(_) =>
  }

  lemma {:induction false} HistoryBounded(ops: seq<Op>, sel: Sel, limit: nat, t: int)
    requires Timed(ops) && Bounded(sel, limit)
    ensures Within(Run(ops, false), sel, limit, t)
  {
    if ops == [] {
    } else {
      HistoryBounded(ops[..|ops| - 1], sel, limit, t);
      DoWithin(Run(ops[..|ops| - 1], false), ops[|ops| - 1], sel, limit, t);
    }
  }

  /** Over any run with a clock that never goes back, every window of 900 seconds has at most 8 failures
      written for an ordinary username, at most 10 written from one address through `login`, and at most 10
      from one address through enrolment - counting rows since deleted. */
  lemma EveryWindowBounded(ops: seq<Op>, sel: Sel, limit: nat, t: int)
    requires Timed(ops) && Bounded(sel, limit)
    ensures InWindow(Run(ops, true).written, sel, t) <= limit
  {
    PruningChangesNoAnswer(ops);
    HistoryBounded(ops, sel, limit, t);
  }

  // ----- The table in place -----

  /** The `login_fail` table.  The ghost fields record the run; `Valid` says that the table is what it gives. */
  class Failures {
    var rows: seq<Fail>

    ghost var world: State
    ghost var ops: seq<Op>

    ghost predicate Valid()
      reads this
    {
      world == Run(ops, true) && rows == world.log
    }

    constructor ()
      ensures Valid() && rows == []
    {
      rows, world, ops := [], START, [];
    }

    ghost method Did(op: Op)
      requires world == Run(ops, true) && rows == Do(world, op, true).log
      modifies this`world, this`ops
      ensures Valid() && ops == old(ops) + [op] && world == Do(old(world), op, true)
    {
      assert (ops + [op])[..|ops|] == ops;
      world := Do(world, op, true);
      ops := ops + [op];
    }

    /** The end of a log-in attempt that found the limit at `now`; a row is written for a failure. */
    method Attempted(ip: string, user: string, now: int, later: int, bad: bool)
      requires Valid()
      modifies this
      ensures Valid() && ops == old(ops) + [Login(ip, user, now, later, bad)]
      ensures rows == if bad && !TooMany(old(rows), ip, user, now)
                      then old(rows) + [Fail(ip, user, later, true)] else old(rows)
    {
      if bad && !TooMany(rows, ip, user, now) {
        rows := rows + [Fail(ip, user, later, true)];
      }
      Did(Login(ip, user, now, later, bad));
    }

    /** The failure side of enrolment: `good` says that the token is known and not expired. */
    method Enrolled(ip: string, good: bool, now: int, later: int) returns (ok: bool)
      requires Valid()
      modifies this
      ensures Valid() && ops == old(ops) + [Enroll(ip, now, later, !good)]
      ensures ok <==> good && !TooManyEnrolls(old(rows), ip, now)
      ensures rows == if !good && !TooManyEnrolls(old(rows), ip, now)
                      then old(rows) + [Fail(ip, ENROLL_USER, later, false)] else old(rows)
    {
      ok := false;
      if !TooManyEnrolls(rows, ip, now) {
        ok := good;
        if !good {
          rows := rows + [Fail(ip, ENROLL_USER, later, false)];
        }
      }
      Did(Enroll(ip, now, later, !good));
    }

    method DeleteOld(now: int)
      requires Valid()
      modifies this
      ensures Valid() && ops == old(ops) + [Prune(now)] && rows == Kept(old(rows), now - WINDOW)
    {
      var kept, i := [], 0;
      while i < |rows|
        invariant 0 <= i <= |rows| && rows == old(rows) && kept == Kept(rows[..i], now - WINDOW)
      {
        assert rows[..i + 1][..i] == rows[..i];
        if rows[i].ts >= now - WINDOW {
          kept := kept + [rows[i]];
        }
        i := i + 1;
      }
      assert rows[..|rows|] == rows;
      rows := kept;
      Did(Prune(now));
    }
  }
}
