/** `now_iso()` writes every instant the same way, so the string test on leases is a test on time. */
module IsoTime {
  import opened Numerals

  datatype Stamp = Stamp(year: nat, month: nat, day: nat, hour: nat, minute: nat, second: nat)

  predicate Leap(y: nat) {
    y % 4 == 0 && (y % 100 != 0 || y % 400 == 0)
  }

  function DaysInMonth(y: nat, m: nat): nat {
    if m == 2 then (if Leap(y) then 29 else 28)
    else if m == 4 || m == 6 || m == 9 || m == 11 then 30
    else 31
  }

  /** What datetime can hold: years 1 to 9999. */
  predicate Valid(t: Stamp) {
    && 1 <= t.year <= 9999 && 1 <= t.month <= 12 && 1 <= t.day <= DaysInMonth(t.year, t.month)
    && t.hour < 24 && t.minute < 60 && t.second < 60
  }

  // ─── the instant ──────────────────────────────────────────────

  function DaysBeforeYear(y: nat): nat
    requires y >= 1
  {
    (y - 1) * 365 + (y - 1) / 4 - (y - 1) / 100 + (y - 1) / 400
  }

  function DaysBeforeMonth(y: nat, m: nat): nat
    requires 1 <= m <= 13
  {
    if m == 1 then 0 else DaysBeforeMonth(y, m - 1) + DaysInMonth(y, m - 1)
  }

  /** Seconds since the start of year 1, UTC. */
  function Seconds(t: Stamp): nat
    requires Valid(t)
  {
    ((DaysBeforeYear(t.year) + DaysBeforeMonth(t.year, t.month) + t.day) * 24 + t.hour) * 3600 + t.minute * 60
    + t.second
  }

  lemma YearLength(y: nat)
    requires y >= 1
    ensures DaysBeforeYear(y + 1) == DaysBeforeYear(y) + DaysBeforeMonth(y, 13)
  {
    assert DaysBeforeMonth(y, 13) == DaysBeforeMonth(y, 11) + 61;
    assert DaysBeforeMonth(y, 11) == DaysBeforeMonth(y, 9) + 61;
    assert DaysBeforeMonth(y, 9) == DaysBeforeMonth(y, 7) + 62;
    assert DaysBeforeMonth(y, 7) == DaysBeforeMonth(y, 5) + 61;
    assert DaysBeforeMonth(y, 5) == DaysBeforeMonth(y, 3) + 61;
    assert DaysBeforeMonth(y, 2) == 31;
    assert DaysBeforeMonth(y, 3) == 31 + DaysInMonth(y, 2);
    LeapStep(y);
  }

  lemma LeapStep(y: nat)
    requires y >= 1
    ensures y / 4 - y / 100 + y / 400 == (y - 1) / 4 - (y - 1) / 100 + (y - 1) / 400 + if Leap(y) then 1 else 0
  {
    Step4(y);
    Step100(y);
    Step400(y);
  }

  lemma Step4(y: nat)
    requires y >= 1
    ensures y / 4 == (y - 1) / 4 + if y % 4 == 0 then 1 else 0
  {
  }

  lemma Step100(y: nat)
    requires y >= 1
    ensures y / 100 == (y - 1) / 100 + if y % 100 == 0 then 1 else 0
    ensures y % 100 == 0 ==> y % 4 == 0
  {
  }

  lemma Step400(y: nat)
    requires y >= 1
    ensures y / 400 == (y - 1) / 400 + if y % 400 == 0 then 1 else 0
    ensures y % 400 == 0 ==> y % 100 == 0
  {
  }

  lemma {:induction false} MonthsAscend(y: nat, m: nat, n: nat)
    requires 1 <= m < n <= 13
    ensures DaysBeforeMonth(y, m) + DaysInMonth(y, m) <= DaysBeforeMonth(y, n)
  {
    if m + 1 < n {
      MonthsAscend(y, m, n - 1);
    }
  }

  lemma {:induction false} YearsAscend(y: nat, z: nat)
    requires 1 <= y < z
    ensures DaysBeforeYear(y) + DaysBeforeMonth(y, 13) <= DaysBeforeYear(z)
  {
    YearLength(z - 1);
    if y + 1 < z {
      YearsAscend(y, z - 1);
    }
  }

  /** Calendar order, field by field. */
  predicate Before(a: Stamp, b: Stamp) {
    a.year < b.year || (a.year == b.year
                        && (a.month < b.month || (a.month == b.month && (a.day < b.day || (a.day == b.day &&
    (a.hour < b.hour || (a.hour == b.hour
                         && (a.minute < b.minute || (a.minute == b.minute && a.second < b.second)))))))))
  }

  function Day(t: Stamp): nat
    requires Valid(t)
  {
    DaysBeforeYear(t.year) + DaysBeforeMonth(t.year, t.month) + t.day
  }

  lemma DaysAscend(a: Stamp, b: Stamp)
    requires Valid(a) && Valid(b)
    requires a.year < b.year || (a.year == b.year && (a.month < b.month || (a.month == b.month && a.day < b.day)))
    ensures Day(a) < Day(b)
  {
    if a.year < b.year {
      if a.month < 13 { MonthsAscend(a.year, a.month, 13); }
      YearsAscend(a.year, b.year);
    } else if a.month < b.month {
      MonthsAscend(a.year, a.month, b.month);
    }
  }

  lemma BeforeIsEarlier(a: Stamp, b: Stamp)
    requires Valid(a) && Valid(b)
    ensures Before(a, b) <==> Seconds(a) < Seconds(b)
  {
    if a.year != b.year || a.month != b.month || a.day != b.day {
      if a.year < b.year || (a.year == b.year && (a.month < b.month || (a.month == b.month && a.day < b.day))) {
        DaysAscend(a, b);
      } else {
        DaysAscend(b, a);
      }
    }
  }

  // ─── the string ───────────────────────────────────────────────

  /** Zero-padded decimal. */
  function Pad(width: nat, n: nat): (s: string)
    ensures |s| == width
  {
    if width == 0 then "" else Pad(width - 1, n / 10) + ['0' + (n % 10) as char]
  }

  /** isoformat(timespec="seconds") of an instant in UTC. */
  function Render(t: Stamp): string {
    Pad(4, t.year) + "-" + Pad(2, t.month) + "-" + Pad(2, t.day) + "T"
    + Pad(2, t.hour) + ":" + Pad(2, t.minute) + ":" + Pad(2, t.second) + "+00:00"
  }

  /** SQLite's default (BINARY) collation. */
  predicate Less(s: string, t: string) {
    t != "" && (s == "" || s[0] < t[0] || (s[0] == t[0] && Less(s[1..], t[1..])))
  }

  lemma {:induction false} LessConcat(a: string, b: string, x: string, y: string)
    requires |a| == |b|
    ensures Less(a + x, b + y) <==> Less(a, b) || (a == b && Less(x, y))
  {
    if a == "" {
      assert a + x == x && b + y == y;
    } else {
      assert (a + x)[1..] == a[1..] + x && (b + y)[1..] == b[1..] + y;
      assert a == b <==> a[0] == b[0] && a[1..] == b[1..];
      LessConcat(a[1..], b[1..], x, y);
    }
  }

  lemma {:induction false} PadOrder(width: nat, m: nat, n: nat)
    requires m < Power10(width) && n < Power10(width)
    ensures Less(Pad(width, m), Pad(width, n)) <==> m < n
    ensures Pad(width, m) == Pad(width, n) <==> m == n
  {
    if width > 0 {
      PadOrder(width - 1, m / 10, n / 10);
      var a, b := Pad(width - 1, m / 10), Pad(width - 1, n / 10);
      var x, y := ['0' + (m % 10) as char], ['0' + (n % 10) as char];
      LessConcat(a, b, x, y);
      assert Less(x, y) <==> m % 10 < n % 10;
      assert a + x == b + y <==> a == b && x == y by {
        assert (a + x)[..|a|] == a && (b + y)[..|b|] == b;
        assert (a + x)[|a|] == x[0] && (b + y)[|b|] == y[0];
      }
    }
  }

  /** One field and its separator, then the rest. */
  lemma Field(width: nat, m: nat, n: nat, sep: string, x: string, y: string)
    requires m < Power10(width) && n < Power10(width)
    ensures Less(Pad(width, m) + sep + x, Pad(width, n) + sep + y) <==> m < n || (m == n && Less(x, y))
  {
    PadOrder(width, m, n);
    LessConcat(Pad(width, m), Pad(width, n), sep + x, sep + y);
    LessConcat(sep, sep, x, y);
    Irreflexive(sep);
    assert Pad(width, m) + sep + x == Pad(width, m) + (sep + x);
    assert Pad(width, n) + sep + y == Pad(width, n) + (sep + y);
  }

  lemma {:induction false} Irreflexive(s: string)
    ensures !Less(s, s)
  {
    if s != "" { Irreflexive(s[1..]); }
  }

  function Clock(t: Stamp): string {
    Pad(2, t.hour) + ":" + (Pad(2, t.minute) + ":" + (Pad(2, t.second) + "+00:00" + ""))
  }

  function Calendar(t: Stamp): string {
    Pad(4, t.year) + "-" + (Pad(2, t.month) + "-" + (Pad(2, t.day) + "T" + Clock(t)))
  }

  lemma RenderIs(t: Stamp)
    ensures Render(t) == Calendar(t)
  {
  }

  /** Comparing two rendered instants as strings is comparing the instants. */
  lemma StringOrderIsTimeOrder(a: Stamp, b: Stamp)
    requires Valid(a) && Valid(b)
    ensures Less(Render(a), Render(b)) <==> Seconds(a) < Seconds(b)
  {
    assert Power10(2) == 100 && Power10(4) == 10000;
    RenderIs(a);
    RenderIs(b);
    Field(2, a.second, b.second, "+00:00", "", "");
    Field(2, a.minute, b.minute, ":", Pad(2, a.second) + "+00:00" + "", Pad(2, b.second) + "+00:00" + "");
    Field(2, a.hour, b.hour, ":", Pad(2, a.minute) + ":" + (Pad(2, a.second) + "+00:00" + ""),
          Pad(2, b.minute) + ":" + (Pad(2, b.second) + "+00:00" + ""));
    Field(2, a.day, b.day, "T", Clock(a), Clock(b));
    Field(2, a.month, b.month, "-", Pad(2, a.day) + "T" + Clock(a), Pad(2, b.day) + "T" + Clock(b));
    Field(4, a.year, b.year, "-", Pad(2, a.month) + "-" + (Pad(2, a.day) + "T" + Clock(a)),
          Pad(2, b.month) + "-" + (Pad(2, b.day) + "T" + Clock(b)));
    BeforeIsEarlier(a, b);
  }

  /** The number that decimal digits write. */
  function Written(s: string): int {
    if s == "" then 0 else Written(s[..|s| - 1]) * 10 + (s[|s| - 1] as int - 48)
  }

  lemma {:induction false} PadWrites(width: nat, n: nat)
    requires n < Power10(width)
    ensures Written(Pad(width, n)) == n
  {
    if width > 0 {
      PadWrites(width - 1, n / 10);
      var front, digit := Pad(width - 1, n / 10), ['0' + (n % 10) as char];
      assert (front + digit)[..width - 1] == front && (front + digit)[width - 1] == digit[0];
    }
  }

  /** Nothing is lost in writing: every field can be read off its place. */
  lemma ReadsBack(t: Stamp)
    requires Valid(t)
    ensures var s := Render(t);
            && |s| == 25 && Written(s[..4]) == t.year && Written(s[5..7]) == t.month && Written(s[8..10]) == t.day
            && Written(s[11..13]) == t.hour && Written(s[14..16]) == t.minute && Written(s[17..19]) == t.second
            && [s[4], s[7], s[10], s[13], s[16]] == "--T::" && s[19..] == "+00:00"
  {
    assert Power10(2) == 100 && Power10(4) == 10000;
    PadWrites(4, t.year);
    PadWrites(2, t.month);
    PadWrites(2, t.day);
    PadWrites(2, t.hour);
    PadWrites(2, t.minute);
    PadWrites(2, t.second);
    Places(Pad(4, t.year), Pad(2, t.month), Pad(2, t.day), Pad(2, t.hour), Pad(2, t.minute), Pad(2, t.second),
           Render(t));
  }

  lemma Places(y: string, m: string, d: string, h: string, i: string, s: string, all: string)
    requires |y| == 4 && |m| == |d| == |h| == |i| == |s| == 2
    requires all == y + "-" + m + "-" + d + "T" + h + ":" + i + ":" + s + "+00:00"
    ensures |all| == 25 && all[..4] == y && all[5..7] == m && all[8..10] == d && all[11..13] == h
    ensures all[14..16] == i && all[17..19] == s
    ensures [all[4], all[7], all[10], all[13], all[16]] == "--T::" && all[19..] == "+00:00"
  {
  }
}
