/** Names of backup files and their retention (agent/internal/actions/backup.go, agent/internal/actions/db.go).

    A backup is called `<prefix>-<YYYYmmdd-HHMMSS><ext>`; pruning sorts the names of one prefix as
    strings and removes from the front until `keep` are left.
 */
module Retention {
  import opened Common

  // ----- Byte-wise string order -----

  predicate Less(a: string, b: string) {
    if b == "" then false
    else if a == "" then true
    else a[0] < b[0] || (a[0] == b[0] && Less(a[1..], b[1..]))
  }

  lemma {:induction false} LessTotal(a: string, b: string)
    ensures Less(a, b) || Less(b, a) || a == b
    ensures !(Less(a, b) && Less(b, a))
    ensures a == b ==> !Less(a, b)
  {
    if a != "" && b != "" && a[0] == b[0] {
      LessTotal(a[1..], b[1..]);
      assert a[1..] == b[1..] ==> [a[0]] + a[1..] == [b[0]] + b[1..];
      assert a == [a[0]] + a[1..] && b == [b[0]] + b[1..];
    }
  }

  lemma {:induction false} LessTransitive(a: string, b: string, c: string)
    requires Less(a, b) && Less(b, c)
    ensures Less(a, c)
  {
    if a != "" && a[0] == b[0] == c[0] {
      LessTransitive(a[1..], b[1..], c[1..]);
    }
  }

  lemma {:induction false} LessSamePrefix(p: string, a: string, b: string)
    ensures Less(p + a, p + b) <==> Less(a, b)
  {
    if p == "" {
      assert p + a == a && p + b == b;
    } else {
      assert (p + a)[1..] == p[1..] + a && (p + b)[1..] == p[1..] + b;
      LessSamePrefix(p[1..], a, b);
    }
  }

  /** A difference inside the fixed-width part decides, whatever follows. */
  lemma {:induction false} LessSameLength(a: string, b: string, x: string, y: string)
    requires |a| == |b| && Less(a, b)
    ensures Less(a + x, b + y)
  {
    assert (a + x)[1..] == a[1..] + x && (b + y)[1..] == b[1..] + y;
    if a[0] == b[0] {
      LessSameLength(a[1..], b[1..], x, y);
    }
  }

  // ----- Time stamps -----

  datatype Time = Time(year: nat, month: nat, day: nat, hour: nat, minute: nat, second: nat)

  predicate Valid(t: Time) {
    t.year < 10000 && 1 <= t.month <= 12 && 1 <= t.day <= 31 && t.hour < 24 && t.minute < 60 && t.second < 60
  }

  predicate Earlier(a: Time, b: Time) {
    a.year < b.year || (a.year == b.year &&
    (a.month < b.month || (a.month == b.month &&
    (a.day < b.day || (a.day == b.day &&
    (a.hour < b.hour || (a.hour == b.hour &&
    (a.minute < b.minute || (a.minute == b.minute && a.second < b.second)))))))))
  }

  function Digits(n: nat, width: nat): (s: string)
    ensures |s| == width
  {
    if width == 0 then "" else Digits(n / 10, width - 1) + [('0' as int + n % 10) as char]
  }

  function Pow10(n: nat): nat {
    if n == 0 then 1 else 10 * Pow10(n - 1)
  }

  lemma {:induction false} DigitsMonotone(a: nat, b: nat, width: nat)
    requires a < b < Pow10(width)
    ensures Less(Digits(a, width), Digits(b, width))
  {
    if width == 0 {
    } else {
      var da, db := [('0' as int + a % 10) as char], [('0' as int + b % 10) as char];
      if a / 10 == b / 10 {
        LessSamePrefix(Digits(a / 10, width - 1), da, db);
      } else {
        DigitsMonotone(a / 10, b / 10, width - 1);
        LessSameLength(Digits(a / 10, width - 1), Digits(b / 10, width - 1), da, db);
      }
    }
  }

  function Stamp(t: Time): string {
    Digits(t.year, 4) + (Digits(t.month, 2) + (Digits(t.day, 2) + ("-" +
    (Digits(t.hour, 2) + (Digits(t.minute, 2) + Digits(t.second, 2))))))
  }

  lemma TwoDigits(n: nat)
    requires n < 100
    ensures Digits(n, 2) == [('0' as int + n / 10) as char, ('0' as int + n % 10) as char]
  {
    assert n / 10 % 10 == n / 10;
    assert Digits(n / 10 / 10, 0) == "";
    assert Digits(n / 10, 1) == [('0' as int + n / 10) as char];
  }

  /** The layout of a stamp: four digits of the year, two each of month and day, a dash, and two each of hour,
      minute and second. */
  lemma StampLayout(t: Time)
    ensures var s := Stamp(t);
            && |s| == 15 && s[8] == '-' && s[..4] == Digits(t.year, 4)
            && s[4..6] == Digits(t.month, 2) && s[6..8] == Digits(t.day, 2)
            && s[9..11] == Digits(t.hour, 2) && s[11..13] == Digits(t.minute, 2) && s[13..] == Digits(t.second, 2)
  {
  }

  /** One fixed-width field: the field decides if it differs, the rest otherwise. */
  lemma FieldOrder(a: nat, b: nat, width: nat, x: string, y: string)
    requires a < Pow10(width) && b < Pow10(width)
    ensures a < b ==> Less(Digits(a, width) + x, Digits(b, width) + y)
    ensures a == b ==> (Less(Digits(a, width) + x, Digits(b, width) + y) <==> Less(x, y))
  {
    if a < b {
      DigitsMonotone(a, b, width);
      LessSameLength(Digits(a, width), Digits(b, width), x, y);
    } else if a == b {
      LessSamePrefix(Digits(a, width), x, y);
    }
  }

  lemma StampMonotone(a: Time, b: Time)
    requires Valid(a) && Valid(b) && Earlier(a, b)
    ensures Less(Stamp(a), Stamp(b))
  {
    assert Pow10(2) == 100 && Pow10(4) == 10000 by { assert Pow10(1) == 10; assert Pow10(3) == 1000; }
    var a5, b5 := Digits(a.second, 2), Digits(b.second, 2);
    var a4, b4 := Digits(a.minute, 2) + a5, Digits(b.minute, 2) + b5;
    var a3, b3 := Digits(a.hour, 2) + a4, Digits(b.hour, 2) + b4;
    var a2, b2 := Digits(a.day, 2) + ("-" + a3), Digits(b.day, 2) + ("-" + b3);
    var a1, b1 := Digits(a.month, 2) + a2, Digits(b.month, 2) + b2;
    FieldOrder(a.second, b.second, 2, "", "");
    assert a5 + "" == a5 && b5 + "" == b5;
    FieldOrder(a.minute, b.minute, 2, a5, b5);
    FieldOrder(a.hour, b.hour, 2, a4, b4);
    LessSamePrefix("-", a3, b3);
    FieldOrder(a.day, b.day, 2, "-" + a3, "-" + b3);
    FieldOrder(a.month, b.month, 2, a2, b2);
    FieldOrder(a.year, b.year, 4, a1, b1);
  }

  // ----- File names -----

  function FileName(prefix: string, t: Time, ext: string): string {
    prefix + "-" + Stamp(t) + ext
  }

  predicate Matches(name: string, prefix: string) {
    prefix + "-" <= name
  }

  /** Names of one prefix sort as their times do. */
  lemma NamesSortByTime(prefix: string, a: Time, b: Time, extA: string, extB: string)
    requires Valid(a) && Valid(b) && a != b
    ensures Less(FileName(prefix, a, extA), FileName(prefix, b, extB)) <==> Earlier(a, b)
  {
    if Earlier(a, b) {
      NameMonotone(prefix, a, b, extA, extB);
    } else {
      assert Earlier(b, a);
      NameMonotone(prefix, b, a, extB, extA);
      LessTotal(FileName(prefix, a, extA), FileName(prefix, b, extB));
    }
  }

  lemma NameMonotone(prefix: string, a: Time, b: Time, extA: string, extB: string)
    requires Valid(a) && Valid(b) && Earlier(a, b)
    ensures Less(FileName(prefix, a, extA), FileName(prefix, b, extB))
  {
    StampMonotone(a, b);
    LessSameLength(Stamp(a), Stamp(b), extA, extB);
    LessSamePrefix(prefix + "-", Stamp(a) + extA, Stamp(b) + extB);
    assert FileName(prefix, a, extA) == prefix + "-" + (Stamp(a) + extA);
    assert FileName(prefix, b, extB) == prefix + "-" + (Stamp(b) + extB);
  }

  /** Plans have dash-free prefixes, so one never matches the files of another. */
  lemma PrefixesDoNotMix(p: string, q: string, t: Time, ext: string)
    requires '-' !in p && '-' !in q
    ensures Matches(FileName(q, t, ext), p) <==> p == q
  {
    var name := FileName(q, t, ext);
    assert name[|q|] == '-' && name[..|q|] == q;
    if Matches(name, p) {
      assert name[|p|] == (p + "-")[|p|] == '-';
      assert name[..|p|] == (p + "-")[..|p|] == p;
    }
  }

  // ----- Pruning -----

  /** The names of one prefix that sort after `name`. */
  ghost function Newer(files: map<string, Bytes>, prefix: string, name: string): set<string> {
    set m | m in files && Matches(m, prefix) && Less(name, m)
  }

  /** What `backup.prune` leaves: per prefix, the names with fewer than `keep` newer ones. */
  ghost function Pruned(files: map<string, Bytes>, prefix: string, keep: int, busy: set<string>): map<string, Bytes> {
    if keep < 1 then files
    else map n | n in files && !(Matches(n, prefix) && |Newer(files, prefix, n)| >= keep && n !in busy) :: files[n]
  }

  ghost predicate Sorted(s: seq<string>) {
    forall i, j :: 0 <= i < j < |s| ==> Less(s[i], s[j])
  }

  ghost function Elements(s: seq<string>): set<string> {
    set i | 0 <= i < |s| :: s[i]
  }

  lemma {:induction false} ElementsSize(s: seq<string>)
    requires Sorted(s)
    ensures |Elements(s)| == |s|
  {
    if s == [] {
    } else {
      var init, last := s[..|s| - 1], s[|s| - 1];
      ElementsSize(init);
      forall i | 0 <= i < |init|
        ensures init[i] != last
      {
        LessTotal(init[i], last);
      }
      assert Elements(s) == Elements(init) + {last};
    }
  }

  /** Inserts a new name into a sorted list: `sort.Strings` one name at a time. */
  method Insert(s: seq<string>, x: string) returns (r: seq<string>)
    requires Sorted(s) && x !in Elements(s)
    ensures Sorted(r) && Elements(r) == Elements(s) + {x}
  {
    var i := |s|;
    while i > 0 && Less(x, s[i - 1])
      invariant 0 <= i <= |s|
      invariant forall j :: i <= j < |s| ==> Less(x, s[j])
    {
      i := i - 1;
    }
    if i > 0 {
      LessTotal(x, s[i - 1]);
      assert s[i - 1] in Elements(s);
      forall j | 0 <= j < i - 1
        ensures Less(s[j], x)
      {
        LessTransitive(s[j], s[i - 1], x);
      }
    }
    r := s[..i] + [x] + s[i..];
    forall y
      ensures y in Elements(r) <==> y in Elements(s) || y == x
    {
      if y in Elements(s) {
        var j :| 0 <= j < |s| && s[j] == y;
        assert r[if j < i then j else j + 1] == y;
      }
      if y == x {
        assert r[i] == x;
      }
    }
  }

  lemma NewerInSorted(files: map<string, Bytes>, prefix: string, names: seq<string>, i: nat)
    requires Sorted(names) && i < |names|
    requires Elements(names) == set m | m in files && Matches(m, prefix)
    ensures |Newer(files, prefix, names[i])| == |names| - 1 - i
  {
    var tail := names[i + 1..];
    ElementsSize(tail);
    forall m
      ensures m in Newer(files, prefix, names[i]) <==> m in Elements(tail)
    {
      if m in Newer(files, prefix, names[i]) {
        assert m in Elements(names);
        var j :| 0 <= j < |names| && names[j] == m;
        LessTotal(names[i], names[j]);
        assert j > i;
        assert tail[j - i - 1] == m;
      }
      if m in Elements(tail) {
        var j :| 0 <= j < |tail| && tail[j] == m;
        assert names[i + 1 + j] == m && m in Elements(names);
      }
    }
    assert Newer(files, prefix, names[i]) == Elements(tail);
  }

  class Directory {
    var files: map<string, Bytes>

    constructor (files: map<string, Bytes>)
      ensures this.files == files
    {
      this.files := files;
    }

    /** `busy` are the names `os.Remove` fails on. */
    method BackupPrune(prefix: string, keep: int, busy: set<string>) returns (ok: bool)
      modifies this
      ensures ok == (keep >= 1)
      ensures files == Pruned(old(files), prefix, keep, busy)
    {
      if keep < 1 {
        return false;
      }
      ok := true;
      var names: seq<string> := [];
      var todo := files.Keys;
      while todo != {}
        invariant todo <= files.Keys && files == old(files)
        invariant Sorted(names)
        invariant Elements(names) == set m | m in files && m !in todo && Matches(m, prefix)
        decreases todo
      {
        var n :| n in todo;
        if prefix + "-" <= n {
          names := Insert(names, n);
        }
        todo := todo - {n};
      }
      ghost var all := names;
      var gone: nat := 0;
      while |names| > keep
        invariant gone <= |all| && names == all[gone..]
        invariant gone == 0 || |all| - gone >= keep
        invariant forall n :: n in files <==>
                    n in old(files) && !(exists i :: 0 <= i < gone && all[i] == n && n !in busy)
        invariant forall n :: n in files ==> files[n] == old(files)[n]
      {
        var p := names[0];
        if p !in busy {
          files := files - {p};
        }
        names := names[1..];
        gone := gone + 1;
        assert all[gone - 1] == p;
      }
      PrunedNames(old(files), files, prefix, keep, busy, all, gone);
    }
  }

  lemma GoneIffOutnumbered(was: map<string, Bytes>, prefix: string, keep: int, all: seq<string>, gone: nat, n: string)
    requires keep >= 1 && Sorted(all) && Elements(all) == set m | m in was && Matches(m, prefix)
    requires gone == (if |all| > keep then |all| - keep else 0) && n in was
    ensures (exists i :: 0 <= i < gone && all[i] == n) <==> Matches(n, prefix) && |Newer(was, prefix, n)| >= keep
  {
    assert forall i :: 0 <= i < |all| ==> all[i] in Elements(all);
    if Matches(n, prefix) {
      assert n in Elements(all);
      var i :| 0 <= i < |all| && all[i] == n;
      NewerInSorted(was, prefix, all, i);
      forall j | 0 <= j < |all| && all[j] == n
        ensures j == i
      {
        LessTotal(all[i], all[j]);
      }
    }
  }

  lemma PrunedNames(was: map<string, Bytes>, now: map<string, Bytes>, prefix: string, keep: int, busy: set<string>,
                    all: seq<string>, gone: nat)
    requires keep >= 1 && Sorted(all) && Elements(all) == set m | m in was && Matches(m, prefix)
    requires gone == if |all| > keep then |all| - keep else 0
    requires forall n :: n in now <==> n in was && !(exists i :: 0 <= i < gone && all[i] == n && n !in busy)
    requires forall n :: n in now ==> now[n] == was[n]
    ensures now == Pruned(was, prefix, keep, busy)
  {
    var want := Pruned(was, prefix, keep, busy);
    forall n | n in was
      ensures (exists i :: 0 <= i < gone && all[i] == n) <==> Matches(n, prefix) && |Newer(was, prefix, n)| >= keep
    {
      GoneIffOutnumbered(was, prefix, keep, all, gone, n);
    }
    assert now.Keys == want.Keys;
  }
}
