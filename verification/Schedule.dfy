/** When a backup plan runs next: `next_run` of hub/icsd_hub/backups.py.

    Times are whole microseconds, the resolution of the source's `datetime`.  A plan has a start hour in
    Tehran (a fixed offset of three and a half hours) and a period of `every` hours; the result is counted
    in periods from the last time that the clock there stood at the start hour.
 */
module Schedule {

  const SECOND := 1_000_000
  const HOUR := 3_600_000_000
  const DAY := 86_400_000_000
  const OFFSET := 12_600_000_000

  function Step(every: int): (d: int)
    ensures d > 0
  {
    (if every < 1 then 1 else every) * HOUR
  }

  /** The start hour of the day of `after`, or of the day before it when that is still to come. */
  function Anchor(start: int, after: int): int {
    var now := after + OFFSET;
    var today := now - now % DAY + start % 24 * HOUR;
    (if today > now then today - DAY else today) - OFFSET
  }

  /** The closed form. */
  function Next(every: int, start: int, after: int): int {
    Above(Anchor(start, after), Step(every), after)
  }

  /** The first of `a`, `a + d`, `a + 2d`, ... that is later than `x`, for `x` not before `a`. */
  function Above(a: int, d: int, x: int): int
    requires d > 0
  {
    a + ((x - a) / d + 1) * d
  }

  // ----- Arithmetic -----

  lemma Positive(k: int, d: int)
    requires d > 0
    ensures k >= 1 ==> k * d >= d
    ensures k <= -1 ==> k * d <= -d
  {
    if k >= 1 {
      assert (k - 1) * d >= 0;
    } else if k <= -1 {
      assert (-1 - k) * d >= 0;
    }
  }

  lemma Quotient(x: int, d: int, q: int, r: int)
    requires d > 0 && x == q * d + r && 0 <= r < d
    ensures x / d == q && x % d == r
  {
    var k := q - x / d;
    assert k * d == q * d - x / d * d;
    Positive(k, d);
  }

  lemma Multiple(k: int, d: int)
    requires d > 0
    ensures k * d % d == 0 && k * d / d == k
  {
    Quotient(k * d, d, k, 0);
  }

  lemma Distribute(a: int, b: int, d: int)
    ensures (a + b) * d == a * d + b * d
    ensures (a - b) * d == a * d - b * d
  {
  }

  lemma Whole(x: int, d: int)
    requires d > 0 && x % d == 0
    ensures x == x / d * d
  {
  }

  lemma SumOfMultiples(x: int, y: int, d: int)
    requires d > 0 && x % d == 0 && y % d == 0
    ensures (x + y) % d == 0 && (x - y) % d == 0
  {
    Whole(x, d);
    Whole(y, d);
    SumOfProducts(x / d, y / d, d);
  }

  lemma SumOfProducts(a: int, b: int, d: int)
    requires d > 0
    ensures (a * d + b * d) % d == 0 && (a * d - b * d) % d == 0
  {
    Distribute(a, b, d);
    Multiple(a + b, d);
    Multiple(a - b, d);
  }

  lemma TimesMultiple(k: int, x: int, d: int)
    requires d > 0 && x % d == 0
    ensures k * x % d == 0
  {
    var a := x / d;
    assert x == a * d;
    assert k * (a * d) == (k * a) * d;
    Multiple(k * a, d);
  }

  lemma Nonnegative(x: int, d: int)
    requires d > 0 && x >= 0
    ensures x / d * d >= 0
  {
    Positive(x / d, d);
  }

  /** `Above` is later than `x` by at most `d`, and lies a whole number of periods from `a`. */
  lemma AboveBounds(a: int, d: int, x: int)
    requires d > 0
    ensures x < Above(a, d, x) <= x + d
    ensures Above(a, d, x) == a + ((x - a) / d + 1) * d
    ensures ((x - a) / d + 1) * d == (x - a) / d * d + d
  {
    var q := (x - a) / d;
    assert (q + 1) * d == q * d + d;
    assert x - a == q * d + (x - a) % d;
  }

  /** It is the only such number. */
  lemma AboveIs(a: int, d: int, x: int, k: int)
    requires d > 0 && x < a + k * d <= x + d
    ensures Above(a, d, x) == a + k * d && (x - a) / d + 1 == k
  {
    assert (k - 1) * d == k * d - d;
    Quotient(x - a, d, k - 1, x - a - (k - 1) * d);
  }

  // ----- Anchors -----

  /** The first grid point of the era: all anchors are whole days from it. */
  function Origin(start: int): int {
    start % 24 * HOUR - OFFSET
  }

  function Days(start: int, after: int): int {
    var now := after + OFFSET;
    if now - now % DAY + start % 24 * HOUR > now then now / DAY - 1 else now / DAY
  }

  lemma AnchorBounds(start: int, after: int)
    ensures Anchor(start, after) == Origin(start) + Days(start, after) * DAY
    ensures Anchor(start, after) <= after < Anchor(start, after) + DAY
  {
    var now := after + OFFSET;
    var q, r := now / DAY, now % DAY;
    assert now == q * DAY + r;
  }

  lemma AnchorIs(start: int, after: int, q: int)
    requires Origin(start) + q * DAY <= after < Origin(start) + q * DAY + DAY
    ensures Anchor(start, after) == Origin(start) + q * DAY
  {
    AnchorBounds(start, after);
  }

  /** At an anchor the clock in Tehran, three and a half hours ahead, shows the start hour exactly. */
  lemma AnchorIsTheHour(start: int, after: int)
    ensures (Anchor(start, after) + 210 * 60 * 1_000_000) % (24 * 3_600_000_000) == start % 24 * 3_600_000_000
  {
    AnchorBounds(start, after);
    Quotient(Anchor(start, after) + OFFSET, DAY, Days(start, after), start % 24 * HOUR);
  }

  // ----- The loop -----

  /** The result in seconds: the least point strictly later than `after` among those a whole number of
      periods from the anchor. */
  method NextRun(every: int, start: int, after: int) returns (r: int)
    ensures r * SECOND == Next(every, start, after)
  {
    var d := Step(every);
    var t := Anchor(start, after);
    AnchorBounds(start, after);
    ghost var k := 0;
    while t <= after
      invariant t == Anchor(start, after) + k * d
      invariant t <= after + d
      decreases after - t
    {
      t := t + d;
      k := k + 1;
      assert (k - 1) * d + d == k * d;
    }
    AboveIs(Anchor(start, after), d, after, k);
    WholeSeconds(every, start, after);
    r := t / SECOND;
  }

  lemma WholeSeconds(every: int, start: int, after: int)
    ensures Next(every, start, after) % SECOND == 0
  {
    AnchorBounds(start, after);
    var a, d := Anchor(start, after), Step(every);
    var n := (after - a) / d + 1;
    assert d % SECOND == 0 by {
      TimesMultiple(if every < 1 then 1 else every, HOUR, SECOND);
    }
    TimesMultiple(n, d, SECOND);
    assert a % SECOND == 0;
    SumOfMultiples(a, n * d, SECOND);
  }

  // ----- What the result means -----

  /** Least: it is a period point later than `after`, and no later point of the anchor's comes before. */
  lemma NextIsLeast(every: int, start: int, after: int, k: nat)
    ensures Next(every, start, after) > after
    ensures Anchor(start, after) + k * Step(every) > after ==>
              Next(every, start, after) <= Anchor(start, after) + k * Step(every)
  {
    var a, d := Anchor(start, after), Step(every);
    AboveBounds(a, d, after);
    var n := (after - a) / d + 1;
    assert (n - k) * d == n * d - k * d;
    Positive(n - k, d);
  }

  /** The wait is positive and at most one period; at a point of the schedule itself it is a whole period. */
  lemma NextGap(every: int, start: int, after: int)
    ensures 0 < Next(every, start, after) - after <= Step(every)
    ensures Next(every, start, after) - after == Step(every) <==> (after - Anchor(start, after)) % Step(every) == 0
  {
    var a, d := Anchor(start, after), Step(every);
    AboveBounds(a, d, after);
    assert after - a == (after - a) / d * d + (after - a) % d;
  }

  lemma AboveMonotone(a: int, d: int, x: int, y: int)
    requires d > 0 && x <= y
    ensures Above(a, d, x) <= Above(a, d, y)
  {
    AboveBounds(a, d, x);
    AboveBounds(a, d, y);
    var n, m := (x - a) / d + 1, (y - a) / d + 1;
    Distribute(n, m, d);
    Positive(n - m, d);
  }

  lemma NextMonotone(every: int, start: int, x: int, y: int)
    requires x <= y
    ensures Next(every, start, x) <= Next(every, start, y)
  {
    var d, a, b := Step(every), Anchor(start, x), Anchor(start, y);
    AnchorBounds(start, x);
    AnchorBounds(start, y);
    if a == b {
      AboveMonotone(a, d, x, y);
    } else {
      assert b >= a + DAY;
      AboveBounds(a, d, x);
      AboveBounds(b, d, y);
      Nonnegative(y - b, d);
    }
  }

  // ----- One grid -----

  /** All results are whole periods apart. */
  ghost predicate OneGrid(every: int, start: int) {
    exists c :: OnGrid(every, start, c)
  }

  ghost predicate OnGrid(every: int, start: int, c: int) {
    forall x :: (Next(every, start, x) - c) % Step(every) == 0
  }

  lemma DayInPeriods(every: int)
    ensures DAY % Step(every) == 0 <==> 24 % (if every < 1 then 1 else every) == 0
  {
    var h, d := if every < 1 then 1 else every, Step(every);
    if 24 % h == 0 {
      Whole(24, h);
      Hours(24 / h, h);
      Multiple(24 / h, d);
    }
    if DAY % d == 0 {
      Whole(DAY, d);
      Hours(DAY / d, h);
      Multiple(DAY / d, h);
    }
  }

  lemma Hours(m: int, h: int)
    ensures m * (h * HOUR) == m * h * HOUR
  {
  }

  lemma NextFromAnchor(every: int, start: int, q: int)
    ensures Next(every, start, Origin(start) + q * DAY) == Origin(start) + q * DAY + Step(every)
  {
    var a, d := Origin(start) + q * DAY, Step(every);
    AnchorIs(start, a, q);
    assert 1 * d == d;
    AboveIs(a, d, a, 1);
  }

  lemma GridWhenDivides(every: int, start: int)
    requires DAY % Step(every) == 0
    ensures OnGrid(every, start, Origin(start))
  {
    var d, c := Step(every), Origin(start);
    forall x ensures (Next(every, start, x) - c) % d == 0 {
      AnchorBounds(start, x);
      var a, q := Anchor(start, x), Days(start, x);
      var n := (x - a) / d + 1;
      TimesMultiple(q, DAY, d);
      Multiple(n, d);
      SumOfMultiples(q * DAY, n * d, d);
    }
  }

  lemma DividesWhenGrid(every: int, start: int, c: int)
    requires OnGrid(every, start, c)
    ensures DAY % Step(every) == 0
  {
    var o := Origin(start);
    NextFromAnchor(every, start, 0);
    NextFromAnchor(every, start, 1);
    SumOfMultiples(Next(every, start, o + 1 * DAY) - c, Next(every, start, o + 0 * DAY) - c, Step(every));
  }

  /** The runs of a plan all lie on one fixed grid exactly when its period divides the day. */
  lemma OneGridIff(every: int, start: int)
    ensures OneGrid(every, start) <==> 24 % (if every < 1 then 1 else every) == 0
  {
    DayInPeriods(every);
    if 24 % (if every < 1 then 1 else every) == 0 {
      GridWhenDivides(every, start);
    }
    if OneGrid(every, start) {
      var c :| OnGrid(every, start, c);
      DividesWhenGrid(every, start, c);
    }
  }

  // ----- The interval between runs -----

  /** A plan asked for its next run at the moment of a run gets one exactly a period later, always. */
  ghost predicate KeepsInterval(every: int, start: int) {
    forall x :: Next(every, start, Next(every, start, x)) == Next(every, start, x) + Step(every)
  }

  /** With a period of a day or more, every interval after the first is cut to whole days. */
  lemma LongPeriods(every: int, start: int, x: int)
    requires every >= 24
    ensures var t := Next(every, start, x); Next(every, start, t) == t + every / 24 * DAY
  {
    var d, a := Step(every), Anchor(start, x);
    AnchorBounds(start, x);
    assert 1 * d == d;
    AboveIs(a, d, x, 1);
    var t, q := a + d, Days(start, x) + every / 24;
    assert every == every / 24 * 24 + every % 24;
    AnchorIs(start, t, q);
    AboveIs(Anchor(start, t), d, t, 1);
  }

  lemma DividingPeriods(every: int, start: int, x: int)
    requires DAY % Step(every) == 0
    ensures var t := Next(every, start, x); Next(every, start, t) == t + Step(every)
  {
    var d, c, t := Step(every), Origin(start), Next(every, start, x);
    GridWhenDivides(every, start);
    AnchorBounds(start, t);
    TimesMultiple(Days(start, t), DAY, d);
    SumOfMultiples(t - c, Days(start, t) * DAY, d);
    NextGap(every, start, t);
  }

  /** A shorter period that does not divide the day is cut short at the next start hour. */
  lemma CutPeriod(every: int, start: int) returns (x: int)
    requires every < 24 && DAY % Step(every) != 0
    ensures Next(every, start, Next(every, start, x)) < Next(every, start, x) + Step(every)
  {
    var d, o := Step(every), Origin(start);
    var m := DAY / d;
    assert DAY == m * d + DAY % d;
    assert (m + 1) * d == m * d + d;
    x := o + m * d;
    assert o + 0 * DAY == o;
    Nonnegative(DAY, d);
    AnchorIs(start, x, 0);
    AboveIs(o, d, x, m + 1);
    var t := o + (m + 1) * d;
    AnchorIs(start, t, 1);
    assert 1 * d == d;
    AboveIs(o + 1 * DAY, d, t, 1);
  }

  /** Runs keep the period asked for exactly when it divides the day or is a whole number of days. */
  lemma KeepsIntervalIff(every: int, start: int)
    ensures KeepsInterval(every, start) <==> 24 % (if every < 1 then 1 else every) == 0 || every % 24 == 0
  {
    DayInPeriods(every);
    if 24 % (if every < 1 then 1 else every) == 0 {
      forall x ensures Next(every, start, Next(every, start, x)) == Next(every, start, x) + Step(every) {
        DividingPeriods(every, start, x);
      }
    } else if every >= 24 {
      forall x ensures Next(every, start, Next(every, start, x)) == Next(every, start, x) + every / 24 * DAY {
        LongPeriods(every, start, x);
      }
      assert Step(every) == every / 24 * DAY + every % 24 * HOUR;
      if every % 24 != 0 {
        assert Next(every, start, Next(every, start, 0)) != Next(every, start, 0) + Step(every);
      }
    } else {
      var x := CutPeriod(every, start);
    }
  }

  /** Every 36 hours is accepted and, after the first wait, means every 24. */
  lemma ThirtySixIsADay(start: int, x: int)
    ensures var t := Next(36, start, x); Next(36, start, t) == t + 24 * HOUR
  {
    LongPeriods(36, start, x);
  }
}
