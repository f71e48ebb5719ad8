/** The per-minute rollup (hub/icsd_hub/live.py): samples are accumulated in memory and flushed into one
    row per minute; a row that exists is merged as a weighted average.

    Rounding is any pair of functions (Python's `round`, SQLite's `ROUND`) that move a value by at most
    `eps`.  With `eps` 0 the results are exact; two decimals mean `eps` 0.005.
 */
module Rollup {

  const FIELDS := 12   // cpu first

  function Zeros(n: nat): (r: seq<real>)
    ensures |r| == n && forall i :: 0 <= i < n ==> r[i] == 0.0
  {
    if n == 0 then [] else [0.0] + Zeros(n - 1)
  }

  type Point = p: seq<real> | |p| == FIELDS witness Zeros(FIELDS)

  datatype Row = Row(n: nat, cpuMax: real, avg: Point)

  datatype Rounding = Rounding(py: real -> real, sql: real -> real)

  /** `rows` is the table.  `peak` and `writes` only record, per minute, the exact maximum and the number of flushes. */
  datatype State = State(minute: int, acc: Point, cpuMax: real, n: nat, rows: map<int, Row>,
                         peak: map<int, real>, writes: map<int, nat>)

  const EMPTY := State(0, Zeros(FIELDS), 0.0, 0, map[], map[], map[])

  function Max(a: real, b: real): real {
    if a < b then b else a
  }

  function Add(a: seq<real>, b: seq<real>): (r: seq<real>)
    requires |a| == |b|
    ensures |r| == |a| && forall i :: 0 <= i < |r| ==> r[i] == a[i] + b[i]
  {
    if a == [] then [] else [a[0] + b[0]] + Add(a[1..], b[1..])
  }

  function Minute(ts: int): int {
    ts - ts % 60
  }

  /** It is the whole minute the time lies in. */
  lemma MinuteIs(ts: int)
    ensures Minute(ts) % 60 == 0 && Minute(ts) <= ts < Minute(ts) + 60
  {
  }

  function Averages(rd: Rounding, acc: seq<real>, n: nat): (r: seq<real>)
    requires n > 0
    ensures |r| == |acc| && forall i :: 0 <= i < |r| ==> r[i] == rd.py(acc[i] / n as real)
  {
    if acc == [] then [] else [rd.py(acc[0] / n as real)] + Averages(rd, acc[1..], n)
  }

  /** `x * n` for a count `n`. */
  function Times(x: real, n: nat): real {
    if n == 0 then 0.0 else Times(x, n - 1) + x
  }

  /** The merge of one column: the average of `n` samples and of `k` more, rounded by SQLite. */
  function Blend(rd: Rounding, a: real, n: nat, b: real, k: nat): real
    requires n + k > 0
  {
    rd.sql((Times(a, n) + Times(b, k)) / (n + k) as real)
  }

  /** The weighted averages the upsert writes, column by column. */
  function Weighted(rd: Rounding, a: seq<real>, n: nat, b: seq<real>, k: nat): (r: seq<real>)
    requires n + k > 0 && |a| == |b|
    ensures |r| == |a|
    ensures forall i :: 0 <= i < |r| ==> r[i] == Blend(rd, a[i], n, b[i], k)
  {
    if a == [] then []
    else [Blend(rd, a[0], n, b[0], k)] + Weighted(rd, a[1..], n, b[1..], k)
  }

  function Merge(rd: Rounding, row: Row, add: Row): Row
    requires row.n + add.n > 0
  {
    Row(row.n + add.n, Max(row.cpuMax, add.cpuMax), Weighted(rd, row.avg, row.n, add.avg, add.n))
  }

  function Flush(rd: Rounding, s: State): State {
    if s.n == 0 then s
    else
      var add := Row(s.n, rd.py(s.cpuMax), Averages(rd, s.acc, s.n));
      var m := s.minute;
      s.(rows := s.rows[m := if m in s.rows then Merge(rd, s.rows[m], add) else add],
         peak := s.peak[m := if m in s.peak then Max(s.peak[m], s.cpuMax) else s.cpuMax],
         writes := s.writes[m := (if m in s.writes then s.writes[m] else 0) + 1],
         acc := Zeros(FIELDS), cpuMax := 0.0, n := 0)
  }

  function Accumulate(rd: Rounding, s0: State, ts: int, p: Point): State {
    var s := if s0.n > 0 && Minute(ts) != s0.minute then Flush(rd, s0) else s0;
    s.(minute := if s.n == 0 then Minute(ts) else s.minute,
       acc := Add(s.acc, p), cpuMax := Max(s.cpuMax, p[0]), n := s.n + 1)
  }

  /** A sample arrives, or something flushes: a disconnect, a shutdown. */
  datatype Op = Sample(ts: int, p: Point) | DoFlush

  function Do(rd: Rounding, s: State, op: Op): State {
    match op
    case Sample(ts, p) => Accumulate(rd, s, ts, p)
    case DoFlush => Flush(rd, s)
  }

  function Run(rd: Rounding, ops: seq<Op>): State {
    if ops == [] then EMPTY else Do(rd, Run(rd, ops[..|ops| - 1]), ops[|ops| - 1])
  }

  // ----- What the samples of a minute say, without the machine -----

  predicate In(op: Op, m: int) {
    op.Sample? && Minute(op.ts) == m
  }

  function Count(ops: seq<Op>, m: int): nat {
    if ops == [] then 0 else Count(ops[..|ops| - 1], m) + if In(ops[|ops| - 1], m) then 1 else 0
  }

  function Sum(ops: seq<Op>, m: int, i: nat): real
    requires i < FIELDS
  {
    if ops == [] then 0.0 else Sum(ops[..|ops| - 1], m, i) + if In(ops[|ops| - 1], m) then ops[|ops| - 1].p[i] else 0.0
  }

  /** The largest cpu value of the minute, and at least 0. */
  function Peak(ops: seq<Op>, m: int): real {
    if ops == [] then 0.0
    else if In(ops[|ops| - 1], m) then Max(Peak(ops[..|ops| - 1], m), ops[|ops| - 1].p[0])
    else Peak(ops[..|ops| - 1], m)
  }

  /** The `j`-th operation is one of the first `n` samples of the minute. */
  predicate Among(ops: seq<Op>, m: int, n: nat, j: nat) {
    j < |ops| && In(ops[j], m) && Count(ops[..j], m) < n
  }

  /** The sum over the first `n` samples of the minute, in order of arrival. */
  function SumFirst(ops: seq<Op>, m: int, i: nat, n: nat): real
    requires i < FIELDS
  {
    if ops == [] then 0.0
    else SumFirst(ops[..|ops| - 1], m, i, n) + if Among(ops, m, n, |ops| - 1) then ops[|ops| - 1].p[i] else 0.0
  }

  function MeanFirst(ops: seq<Op>, m: int, i: nat, n: nat): real
    requires i < FIELDS && n > 0
  {
    SumFirst(ops, m, i, n) / n as real
  }

  function PeakFirst(ops: seq<Op>, m: int, n: nat): real {
    if ops == [] then 0.0
    else if Among(ops, m, n, |ops| - 1) then Max(PeakFirst(ops[..|ops| - 1], m, n), ops[|ops| - 1].p[0])
    else PeakFirst(ops[..|ops| - 1], m, n)
  }

  lemma {:induction false} AllFirst(ops: seq<Op>, m: int, i: nat, n: nat)
    requires i < FIELDS && n >= Count(ops, m)
    ensures SumFirst(ops, m, i, n) == Sum(ops, m, i) && PeakFirst(ops, m, n) == Peak(ops, m)
  {
    if ops == [] {
    } else {
      AllFirst(ops[..|ops| - 1], m, i, n);
    }
  }

  // ----- Distances -----

  predicate Close(x: real, y: real, e: real) {
    -e <= x - y <= e
  }

  ghost predicate Within(rd: Rounding, eps: real) {
    eps >= 0.0 && (forall x :: Close(rd.py(x), x, eps)) && (forall x :: Close(rd.sql(x), x, eps))
  }

  lemma {:induction false} TimesIsProduct(x: real, n: nat)
    ensures Times(x, n) == x * n as real
  {
    if n == 0 {
    } else {
      TimesIsProduct(x, n - 1);
      assert x * (n - 1) as real + x == x * n as real;
    }
  }

  lemma {:induction false} TimesSplit(x: real, a: nat, b: nat)
    ensures Times(x, a + b) == Times(x, a) + Times(x, b)
  {
    if b == 0 {
    } else {
      TimesSplit(x, a, b - 1);
    }
  }

  lemma {:induction false} TimesOfSum(x: real, y: real, n: nat)
    ensures Times(x + y, n) == Times(x, n) + Times(y, n)
  {
    if n == 0 {
    } else {
      TimesOfSum(x, y, n - 1);
    }
  }

  lemma {:induction false} TimesMonotone(x: real, y: real, n: nat)
    requires x <= y
    ensures Times(x, n) <= Times(y, n)
  {
    if n == 0 {
    } else {
      TimesMonotone(x, y, n - 1);
    }
  }

  lemma {:induction false} TimesClose(x: real, y: real, e: real, n: nat)
    requires Close(x, y, e)
    ensures Close(Times(x, n), Times(y, n), Times(e, n))
  {
    if n == 0 {
    } else {
      TimesClose(x, y, e, n - 1);
    }
  }

  lemma {:induction false} AtLeastOnce(e: real, k: nat)
    requires e >= 0.0 && k >= 1
    ensures Times(e, k) >= e
  {
    if k > 1 {
      AtLeastOnce(e, k - 1);
    } else {
      assert Times(e, 0) == 0.0;
    }
  }

  lemma QuotientTimes(x: real, n: nat)
    requires n > 0
    ensures Times(x / n as real, n) == x
  {
    TimesIsProduct(x / n as real, n);
  }

  /** One merge adds one rounding error, whatever the batch sizes. */
  lemma MergeError(rd: Rounding, s: real, n0: nat, sum0: real, k: nat, a: real, n: nat, sum: real, eps: real)
    requires Within(rd, eps) && n0 > 0 && n > 0 && k >= 1
    requires Close(Times(s, n0), sum0, Times(Times(eps, k), n0))
    requires Close(Times(a, n), sum, Times(eps, n))
    ensures Close(Times(Blend(rd, s, n0, a, n), n0 + n), sum0 + sum, Times(Times(eps, k + 1), n0 + n))
  {
    var q, ke := (Times(s, n0) + Times(a, n)) / (n0 + n) as real, Times(eps, k);
    QuotientTimes(Times(s, n0) + Times(a, n), n0 + n);
    TimesClose(rd.sql(q), q, eps, n0 + n);
    TimesOfSum(ke, eps, n0 + n);
    TimesSplit(ke, n0, n);
    AtLeastOnce(eps, k);
    TimesMonotone(eps, ke, n);
  }

  // ----- The invariant, for one minute and one column -----

  function RowCount(s: State, m: int): nat {
    if m in s.rows then s.rows[m].n else 0
  }

  predicate Holds(s: State, m: int) {
    s.n > 0 && s.minute == m
  }

  ghost predicate CountOk(s: State, ops: seq<Op>, m: int) {
    && RowCount(s, m) + (if Holds(s, m) then s.n else 0) == Count(ops, m)
    && (m in s.rows <==> m in s.writes)
    && (m in s.rows ==> s.rows[m].n > 0 && s.writes[m] >= 1)
  }

  ghost predicate PeakOk(s: State, ops: seq<Op>, m: int, eps: real) {
    && (m in s.rows <==> m in s.peak)
    && (m in s.rows ==> Close(s.rows[m].cpuMax, s.peak[m], eps) && s.peak[m] >= 0.0)
    && s.cpuMax >= 0.0
    && Max(if m in s.peak then s.peak[m] else 0.0, if Holds(s, m) then s.cpuMax else 0.0) == Peak(ops, m)
  }

  ghost predicate SumOk(s: State, ops: seq<Op>, m: int, i: nat, eps: real)
    requires i < FIELDS
  {
    var flushed := Sum(ops, m, i) - if Holds(s, m) then s.acc[i] else 0.0;
    if m in s.rows && m in s.writes
    then Close(Times(s.rows[m].avg[i], s.rows[m].n), flushed, Times(Times(eps, s.writes[m]), s.rows[m].n))
    else flushed == 0.0
  }

  ghost predicate Inv(s: State, ops: seq<Op>, m: int, i: nat, eps: real)
    requires i < FIELDS
  {
    (s.n == 0 ==> s.acc == Zeros(FIELDS) && s.cpuMax == 0.0)
    && CountOk(s, ops, m) && PeakOk(s, ops, m, eps) && SumOk(s, ops, m, i, eps)
  }

  lemma FlushKeepsSum(rd: Rounding, s: State, ops: seq<Op>, m: int, i: nat, eps: real)
    requires Within(rd, eps) && i < FIELDS && Holds(s, m) && CountOk(s, ops, m) && SumOk(s, ops, m, i, eps)
    ensures SumOk(Flush(rd, s), ops, m, i, eps)
  {
    var q := s.acc[i] / s.n as real;
    var a := rd.py(q);
    QuotientTimes(s.acc[i], s.n);
    TimesClose(a, q, eps, s.n);
    if m in s.rows {
      MergeError(rd, s.rows[m].avg[i], s.rows[m].n, Sum(ops, m, i) - s.acc[i], s.writes[m], a, s.n, s.acc[i], eps);
    } else {
      assert Times(eps, 1) == Times(eps, 0) + eps;
    }
  }

  lemma FlushKeeps(rd: Rounding, s: State, ops: seq<Op>, m: int, i: nat, eps: real)
    requires Within(rd, eps) && i < FIELDS && Inv(s, ops, m, i, eps)
    ensures Inv(Flush(rd, s), ops, m, i, eps)
  {
    if Holds(s, m) {
      FlushKeepsSum(rd, s, ops, m, i, eps);
      assert Close(rd.py(s.cpuMax), s.cpuMax, eps);
    }
  }

  /** Adding a sample to an accumulator that is empty or of the same minute. */
  lemma AddKeeps(s: State, ops: seq<Op>, m: int, i: nat, eps: real, ts: int, p: Point)
    requires i < FIELDS && Inv(s, ops, m, i, eps) && (s.n == 0 || s.minute == Minute(ts))
    ensures var s' := s.(minute := Minute(ts), acc := Add(s.acc, p), cpuMax := Max(s.cpuMax, p[0]), n := s.n + 1);
            Inv(s', ops + [Sample(ts, p)], m, i, eps)
  {
    var ops' := ops + [Sample(ts, p)];
    assert ops'[..|ops'| - 1] == ops;
  }

  lemma SameSamples(s: State, ops: seq<Op>, m: int, i: nat, eps: real)
    requires i < FIELDS && Inv(s, ops, m, i, eps)
    ensures Inv(s, ops + [DoFlush], m, i, eps)
  {
    assert (ops + [DoFlush])[..|ops + [DoFlush]| - 1] == ops;
  }

  lemma DoKeeps(rd: Rounding, s: State, ops: seq<Op>, op: Op, m: int, i: nat, eps: real)
    requires Within(rd, eps) && i < FIELDS && Inv(s, ops, m, i, eps)
    ensures Inv(Do(rd, s, op), ops + [op], m, i, eps)
  {
    FlushKeeps(rd, s, ops, m, i, eps);
    match op
    case DoFlush => SameSamples(Flush(rd, s), ops, m, i, eps);
    case Sample(ts, p) =>
      AddKeeps(if s.n > 0 && Minute(ts) != s.minute then Flush(rd, s) else s, ops, m, i, eps, ts, p);
  }

  lemma {:induction false} RunKeeps(rd: Rounding, ops: seq<Op>, m: int, i: nat, eps: real)
    requires Within(rd, eps) && i < FIELDS
    ensures Inv(Run(rd, ops), ops, m, i, eps)
  {
    if ops == [] {
    } else {
      var init, op := ops[..|ops| - 1], ops[|ops| - 1];
      RunKeeps(rd, init, m, i, eps);
      DoKeeps(rd, Run(rd, init), init, op, m, i, eps);
      assert ops == init + [op];
    }
  }

  // ----- Which samples a row has -----

  /** The row has the first samples of its minute, the accumulator the others. */
  ghost predicate FirstOk(s: State, ops: seq<Op>, m: int, i: nat)
    requires i < FIELDS
  {
    && SumFirst(ops, m, i, RowCount(s, m)) == Sum(ops, m, i) - (if Holds(s, m) then s.acc[i] else 0.0)
    && PeakFirst(ops, m, RowCount(s, m)) == if m in s.peak then s.peak[m] else 0.0
  }

  lemma FlushFirst(rd: Rounding, s: State, ops: seq<Op>, m: int, i: nat, eps: real)
    requires Within(rd, eps) && i < FIELDS && Inv(s, ops, m, i, eps) && FirstOk(s, ops, m, i)
    ensures FirstOk(Flush(rd, s), ops, m, i)
  {
    if Holds(s, m) {
      FlushKeeps(rd, s, ops, m, i, eps);
      AllFirst(ops, m, i, RowCount(Flush(rd, s), m));
    }
  }

  /** A sample beyond the first `n` changes the sum of all and not that of the first. */
  lemma SumMore(ops: seq<Op>, op: Op, m: int, i: nat, n: nat)
    requires i < FIELDS && n <= Count(ops, m)
    ensures SumFirst(ops + [op], m, i, n) == SumFirst(ops, m, i, n)
    ensures Sum(ops + [op], m, i) == Sum(ops, m, i) + if In(op, m) then op.p[i] else 0.0
  {
    assert (ops + [op])[..|ops + [op]| - 1] == ops;
  }

  lemma PeakMore(ops: seq<Op>, op: Op, m: int, n: nat)
    requires n <= Count(ops, m)
    ensures PeakFirst(ops + [op], m, n) == PeakFirst(ops, m, n)
  {
    assert (ops + [op])[..|ops + [op]| - 1] == ops;
  }

  lemma AddFirst(s: State, ops: seq<Op>, m: int, i: nat, eps: real, ts: int, p: Point)
    requires i < FIELDS && Inv(s, ops, m, i, eps) && FirstOk(s, ops, m, i) && (s.n == 0 || s.minute == Minute(ts))
    ensures var s' := s.(minute := Minute(ts), acc := Add(s.acc, p), cpuMax := Max(s.cpuMax, p[0]), n := s.n + 1);
            FirstOk(s', ops + [Sample(ts, p)], m, i)
  {
    SumMore(ops, Sample(ts, p), m, i, RowCount(s, m));
    PeakMore(ops, Sample(ts, p), m, RowCount(s, m));
  }

  lemma DoFirst(rd: Rounding, s: State, ops: seq<Op>, op: Op, m: int, i: nat, eps: real)
    requires Within(rd, eps) && i < FIELDS && Inv(s, ops, m, i, eps) && FirstOk(s, ops, m, i)
    ensures FirstOk(Do(rd, s, op), ops + [op], m, i)
  {
    FlushKeeps(rd, s, ops, m, i, eps);
    FlushFirst(rd, s, ops, m, i, eps);
    match op
    case DoFlush => assert (ops + [DoFlush])[..|ops + [DoFlush]| - 1] == ops;
    case Sample(ts, p) =>
      AddFirst(if s.n > 0 && Minute(ts) != s.minute then Flush(rd, s) else s, ops, m, i, eps, ts, p);
  }

  lemma {:induction false} RunFirst(rd: Rounding, ops: seq<Op>, m: int, i: nat, eps: real)
    requires Within(rd, eps) && i < FIELDS
    ensures FirstOk(Run(rd, ops), ops, m, i)
  {
    if ops == [] {
    } else {
      var init, op := ops[..|ops| - 1], ops[|ops| - 1];
      RunKeeps(rd, init, m, i, eps);
      RunFirst(rd, init, m, i, eps);
      DoFirst(rd, Run(rd, init), init, op, m, i, eps);
      assert ops == init + [op];
    }
  }

  // ----- Main results -----

  lemma DoCounts(rd: Rounding, s: State, ops: seq<Op>, op: Op, m: int)
    requires CountOk(s, ops, m)
    ensures CountOk(Do(rd, s, op), ops + [op], m)
  {
    assert (ops + [op])[..|ops + [op]| - 1] == ops;
  }

  /** No sample is lost or counted twice, in any order, with any placement of flushes and any rounding. */
  lemma {:induction false} SamplesConserved(rd: Rounding, ops: seq<Op>, m: int)
    ensures var s := Run(rd, ops); RowCount(s, m) + (if Holds(s, m) then s.n else 0) == Count(ops, m)
    ensures CountOk(Run(rd, ops), ops, m)
  {
    if ops == [] {
    } else {
      var init, op := ops[..|ops| - 1], ops[|ops| - 1];
      SamplesConserved(rd, init, m);
      DoCounts(rd, Run(rd, init), init, op, m);
      assert ops == init + [op];
    }
  }

  /** A row at any moment: it has the first `n` samples of its minute, and all of them once the accumulator
      holds none. */
  lemma RowIsFirst(rd: Rounding, ops: seq<Op>, m: int, i: nat, eps: real)
    requires Within(rd, eps) && i < FIELDS && m in Run(rd, ops).rows
    ensures var s := Run(rd, ops);
            var n := s.rows[m].n;
            && m in s.writes && 0 < n <= Count(ops, m) && (!Holds(s, m) ==> n == Count(ops, m))
            && Close(Times(s.rows[m].avg[i], n), SumFirst(ops, m, i, n), Times(Times(eps, s.writes[m]), n))
            && Close(s.rows[m].cpuMax, PeakFirst(ops, m, n), eps)
  {
    RunKeeps(rd, ops, m, i, eps);
    RunFirst(rd, ops, m, i, eps);
  }

  /** After k flushes into a row, each stored average is within k * eps of the mean of the samples it has. */
  lemma AverageWithinRounding(rd: Rounding, ops: seq<Op>, m: int, i: nat, eps: real)
    requires Within(rd, eps) && i < FIELDS && m in Run(rd, ops).rows
    ensures var s := Run(rd, ops);
            var n := s.rows[m].n;
            && m in s.writes && 0 < n <= Count(ops, m) && (!Holds(s, m) ==> n == Count(ops, m))
            && Close(s.rows[m].avg[i], MeanFirst(ops, m, i, n), Times(eps, s.writes[m]))
  {
    RowIsFirst(rd, ops, m, i, eps);
    var s := Run(rd, ops);
    Unscale(s.rows[m].avg[i], SumFirst(ops, m, i, s.rows[m].n), eps, s.writes[m], s.rows[m].n);
  }

  /** The bound for the two decimals the hub keeps. */
  lemma AverageTwoDecimals(rd: Rounding, ops: seq<Op>, m: int, i: nat)
    requires Within(rd, 0.005) && i < FIELDS && m in Run(rd, ops).rows
    ensures var s := Run(rd, ops);
            var n := s.rows[m].n;
            && m in s.writes && 0 < n <= Count(ops, m) && (!Holds(s, m) ==> n == Count(ops, m))
            && Close(s.rows[m].avg[i], MeanFirst(ops, m, i, n), 0.005 * s.writes[m] as real)
  {
    AverageWithinRounding(rd, ops, m, i, 0.005);
    var s := Run(rd, ops);
    InCents(s.rows[m].avg[i], MeanFirst(ops, m, i, s.rows[m].n), s.writes[m]);
  }

  lemma InCents(x: real, y: real, k: nat)
    requires Close(x, y, Times(0.005, k))
    ensures Close(x, y, 0.005 * k as real)
  {
    TimesIsProduct(0.005, k);
  }

  lemma Unscale(a: real, sum: real, eps: real, k: nat, n: nat)
    requires n > 0 && Close(Times(a, n), sum, Times(Times(eps, k), n))
    ensures Close(a, sum / n as real, Times(eps, k))
  {
    TimesIsProduct(a, n);
    TimesIsProduct(Times(eps, k), n);
    DivideBoth(a, sum, Times(eps, k), n as real);
  }

  lemma DivideBoth(a: real, sum: real, e: real, c: real)
    requires c > 0.0 && Close(a * c, sum, e * c)
    ensures Close(a, sum / c, e)
  {
    var d := a - sum / c;
    assert d * c == a * c - sum;
    assert (d - e) * c <= 0.0;
    assert (d + e) * c >= 0.0;
  }

  lemma NoError(x: real, y: real, k: nat)
    requires Close(x, y, Times(0.0, k))
    ensures x == y
  {
    TimesIsProduct(0.0, k);
  }

  const EXACT := Rounding((x: real) => x, (x: real) => x)

  /** Without rounding a row is the plain mean of the samples it has, and their peak. */
  lemma ExactRow(ops: seq<Op>, m: int, i: nat)
    requires i < FIELDS && m in Run(EXACT, ops).rows
    ensures var s := Run(EXACT, ops);
            var n := s.rows[m].n;
            && 0 < n <= Count(ops, m) && (!Holds(s, m) ==> n == Count(ops, m))
            && s.rows[m].avg[i] == MeanFirst(ops, m, i, n)
            && s.rows[m].cpuMax == PeakFirst(ops, m, n)
  {
    var s := Run(EXACT, ops);
    RowIsFirst(EXACT, ops, m, i, 0.0);
    AverageWithinRounding(EXACT, ops, m, i, 0.0);
    NoError(s.rows[m].avg[i], MeanFirst(ops, m, i, s.rows[m].n), s.writes[m]);
  }

  /** The stored maximum is within one rounding of the peak. */
  lemma PeakWithinRounding(rd: Rounding, ops: seq<Op>, m: int, eps: real)
    requires Within(rd, eps) && m in Run(rd, ops).rows
    ensures var row := Run(rd, ops).rows[m]; Close(row.cpuMax, PeakFirst(ops, m, row.n), eps)
  {
    RowIsFirst(rd, ops, m, 0, eps);
  }

  /** For non-negative cpu values the peak of the first `n` samples is their maximum. */
  lemma {:induction false} PeakIsMaximum(ops: seq<Op>, m: int, n: nat)
    requires forall j :: 0 <= j < |ops| && In(ops[j], m) ==> ops[j].p[0] >= 0.0
    ensures forall j: nat :: Among(ops, m, n, j) ==> ops[j].p[0] <= PeakFirst(ops, m, n)
    ensures Count(ops, m) == 0 || n == 0 ==> PeakFirst(ops, m, n) == 0.0
    ensures Count(ops, m) > 0 && n > 0 ==> exists j: nat :: Among(ops, m, n, j) && ops[j].p[0] == PeakFirst(ops, m, n)
  {
    if ops == [] {
    } else {
      var init, last := ops[..|ops| - 1], |ops| - 1;
      PeakIsMaximum(init, m, n);
      forall j: nat | j < last ensures Among(ops, m, n, j) == Among(init, m, n, j) {
        assert ops[..j] == init[..j];
      }
      if j: nat :| Among(init, m, n, j) && init[j].p[0] == PeakFirst(init, m, n) {
        assert Among(ops, m, n, j) && ops[j].p[0] == PeakFirst(init, m, n);
      }
      if Among(ops, m, n, last) {
        assert ops[last].p[0] <= PeakFirst(ops, m, n);
      }
    }
  }

  lemma {:induction false} AveragesAre(rd: Rounding, acc: seq<real>, n: nat, avg: seq<real>)
    requires n > 0 && |avg| == |acc| && forall j :: 0 <= j < |acc| ==> avg[j] == rd.py(acc[j] / n as real)
    ensures avg == Averages(rd, acc, n)
  {
  }

  method RoundedAverages(rd: Rounding, acc: seq<real>, n: nat) returns (avg: seq<real>)
    requires n > 0
    ensures avg == Averages(rd, acc, n)
  {
    avg := [];
    for i := 0 to |acc|
      invariant |avg| == i && forall j :: 0 <= j < i ==> avg[j] == rd.py(acc[j] / n as real)
    {
      avg := avg + [rd.py(acc[i] / n as real)];
    }
    AveragesAre(rd, acc, n, avg);
  }

  method AddUp(acc: seq<real>, p: seq<real>) returns (r: seq<real>)
    requires |acc| == |p|
    ensures r == Add(acc, p)
  {
    r := acc;
    for i := 0 to |p|
      invariant |r| == |acc| && forall j :: 0 <= j < |acc| ==> r[j] == if j < i then acc[j] + p[j] else acc[j]
    {
      r := r[i := r[i] + p[i]];
    }
  }

  // ----- The `Live` object -----

  class Live {
    var accMinute: int
    var acc: Point
    var accCpuMax: real
    var accN: nat
    var rows: map<int, Row>
    ghost var peak: map<int, real>
    ghost var writes: map<int, nat>

    ghost function View(): State
      reads this
    {
      State(accMinute, acc, accCpuMax, accN, rows, peak, writes)
    }

    constructor ()
      ensures View() == EMPTY
    {
      accMinute, acc, accCpuMax, accN, rows := 0, Zeros(FIELDS), 0.0, 0, map[];
      peak, writes := map[], map[];
    }

    method FlushMinute(rd: Rounding)
      modifies this
      ensures View() == Flush(rd, old(View()))
    {
      if accN == 0 {
        return;
      }
      ghost var after := Flush(rd, View());
      var avg := RoundedAverages(rd, acc, accN);
      var add := Row(accN, rd.py(accCpuMax), avg);
      rows := rows[accMinute := if accMinute in rows then Merge(rd, rows[accMinute], add) else add];
      peak, writes := after.peak, after.writes;
      acc := Zeros(FIELDS);
      accCpuMax := 0.0;
      accN := 0;
    }

    method AddSample(rd: Rounding, ts: int, p: Point)
      modifies this
      ensures View() == Accumulate(rd, old(View()), ts, p)
    {
      var minute := ts - ts % 60;
      if accN > 0 && minute != accMinute {
        FlushMinute(rd);
      }
      if accN == 0 {
        accMinute := minute;
      }
      acc := AddUp(acc, p);
      accCpuMax := Max(accCpuMax, p[0]);
      accN := accN + 1;
    }
  }
}
