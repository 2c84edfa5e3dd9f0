/**
 * Business dates and timestamps are fixed-width strings, compared as strings. Everything else in
 * these models treats them as numbers; this is why that is sound.
 */
module Dates {
  import opened Common

  /** String order, as SQLite's BINARY collation and JavaScript's `<` have it. */
  predicate Less(a: string, b: string) {
    b != [] && (a == [] || a[0] < b[0] || (a[0] == b[0] && Less(a[1..], b[1..])))
  }

  lemma {:induction false} LessIrreflexive(a: string)
    ensures !Less(a, a)
  {
    if a != [] { LessIrreflexive(a[1..]); }
  }

  /** Strings of equal first parts are ordered by their rest. */
  lemma {:induction false} LessByParts(a: string, b: string, x: string, y: string)
    requires |a| == |b|
    ensures Less(a + x, b + y) <==> Less(a, b) || (a == b && Less(x, y))
  {
    if a == [] {
      assert a + x == x && b + y == y;
    } else {
      assert (a + x)[1..] == a[1..] + x && (b + y)[1..] == b[1..] + y;
      LessByParts(a[1..], b[1..], x, y);
      assert a == [a[0]] + a[1..] && b == [b[0]] + b[1..];
    }
  }

  // ------------------------------------------------------------------ padded numbers

  function Pow10(w: nat): (p: nat)
    ensures p >= 1
  {
    if w == 0 then 1 else 10 * Pow10(w - 1)
  }

  function DigitChar(d: nat): char
    requires d < 10
  {
    ('0' as int + d) as char
  }

  /** n in decimal, padded with zeros to w places. */
  function Padded(n: nat, w: nat): (s: string)
    requires n < Pow10(w)
    ensures |s| == w
  {
    if w == 0 then "" else Padded(n / 10, w - 1) + [DigitChar(n % 10)]
  }

  /** Numbers padded to one width sort as numbers. */
  lemma {:induction false} PaddedSorts(a: nat, b: nat, w: nat)
    requires a < Pow10(w) && b < Pow10(w)
    ensures Less(Padded(a, w), Padded(b, w)) <==> a < b
    ensures Padded(a, w) == Padded(b, w) <==> a == b
  {
    if w > 0 {
      PaddedSorts(a / 10, b / 10, w - 1);
      var x, y := [DigitChar(a % 10)], [DigitChar(b % 10)];
      LessByParts(Padded(a / 10, w - 1), Padded(b / 10, w - 1), x, y);
      assert Less(x, y) <==> a % 10 < b % 10 by { assert x[1..] == [] && y[1..] == []; }
      if Padded(a, w) == Padded(b, w) {
        assert Padded(a, w)[..w - 1] == Padded(a / 10, w - 1) && Padded(b, w)[..w - 1] == Padded(b / 10, w - 1);
        assert Padded(a, w)[w - 1] == x[0] && Padded(b, w)[w - 1] == y[0];
      }
    }
  }

  // ------------------------------------------------------------------ timestamps

  datatype Instant = Instant(year: nat, month: nat, day: nat, hour: nat, minute: nat, second: nat, ms: nat) {
    predicate Valid() {
      1000 <= year < 10000 && 1 <= month <= 12 && 1 <= day <= 31 && hour < 24 && minute < 60 && second < 60 && ms < 1000
    }
  }

  /** 'YYYY-MM-DD HH:mm:ss.SSS'; the year is written without padding. */
  function NowSql(t: Instant): string
    requires t.Valid()
  {
    Padded(t.year, 4) + ("-" + (Padded(t.month, 2) + ("-" + (Padded(t.day, 2) + (" " +
      (Padded(t.hour, 2) + (":" + (Padded(t.minute, 2) + (":" + (Padded(t.second, 2) + ("." + Padded(t.ms, 3))))))))))))
  }

  predicate Earlier(a: Instant, b: Instant) {
    a.year < b.year || (a.year == b.year
      && (a.month < b.month || (a.month == b.month
      && (a.day < b.day || (a.day == b.day
      && (a.hour < b.hour || (a.hour == b.hour
      && (a.minute < b.minute || (a.minute == b.minute
      && (a.second < b.second || (a.second == b.second && a.ms < b.ms)))))))))))
  }

  /** One padded field in front of the rest. */
  lemma FieldFirst(a: nat, b: nat, w: nat, x: string, y: string)
    requires a < Pow10(w) && b < Pow10(w)
    ensures Less(Padded(a, w) + x, Padded(b, w) + y) <==> a < b || (a == b && Less(x, y))
  {
    PaddedSorts(a, b, w);
    LessByParts(Padded(a, w), Padded(b, w), x, y);
  }

  lemma SameStart(c: string, x: string, y: string)
    ensures Less(c + x, c + y) <==> Less(x, y)
  {
    LessByParts(c, c, x, y);
    LessIrreflexive(c);
  }

  function ClockPart(t: Instant): string
    requires t.Valid()
  {
    Padded(t.hour, 2) + (":" + (Padded(t.minute, 2) + (":" + (Padded(t.second, 2) + ("." + Padded(t.ms, 3))))))
  }

  predicate EarlierClock(a: Instant, b: Instant) {
    a.hour < b.hour || (a.hour == b.hour && (a.minute < b.minute || (a.minute == b.minute &&
      (a.second < b.second || (a.second == b.second && a.ms < b.ms)))))
  }

  lemma ClockSorts(a: Instant, b: Instant)
    requires a.Valid() && b.Valid()
    ensures Less(ClockPart(a), ClockPart(b)) <==> EarlierClock(a, b)
  {
    var a3, b3 := "." + Padded(a.ms, 3), "." + Padded(b.ms, 3);
    SameStart(".", Padded(a.ms, 3), Padded(b.ms, 3));
    PaddedSorts(a.ms, b.ms, 3);
    var a2, b2 := ":" + (Padded(a.second, 2) + a3), ":" + (Padded(b.second, 2) + b3);
    SameStart(":", Padded(a.second, 2) + a3, Padded(b.second, 2) + b3);
    FieldFirst(a.second, b.second, 2, a3, b3);
    var a1, b1 := ":" + (Padded(a.minute, 2) + a2), ":" + (Padded(b.minute, 2) + b2);
    SameStart(":", Padded(a.minute, 2) + a2, Padded(b.minute, 2) + b2);
    FieldFirst(a.minute, b.minute, 2, a2, b2);
    FieldFirst(a.hour, b.hour, 2, a1, b1);
  }

  /** The order of timestamp strings is the order of time. */
  lemma TimestampsSortAsTime(a: Instant, b: Instant)
    requires a.Valid() && b.Valid()
    ensures Less(NowSql(a), NowSql(b)) <==> Earlier(a, b)
  {
    var a3, b3 := " " + ClockPart(a), " " + ClockPart(b);
    SameStart(" ", ClockPart(a), ClockPart(b));
    ClockSorts(a, b);
    var a2, b2 := "-" + (Padded(a.day, 2) + a3), "-" + (Padded(b.day, 2) + b3);
    SameStart("-", Padded(a.day, 2) + a3, Padded(b.day, 2) + b3);
    FieldFirst(a.day, b.day, 2, a3, b3);
    var a1, b1 := "-" + (Padded(a.month, 2) + a2), "-" + (Padded(b.month, 2) + b2);
    SameStart("-", Padded(a.month, 2) + a2, Padded(b.month, 2) + b2);
    FieldFirst(a.month, b.month, 2, a2, b2);
    FieldFirst(a.year, b.year, 4, a1, b1);
  }

  // ------------------------------------------------------------------ business dates

  predicate Digits(s: string) { forall i :: 0 <= i < |s| ==> '0' <= s[i] <= '9' }

  function Value(s: string): nat
    requires Digits(s)
  {
    if s == [] then 0 else 10 * Value(s[..|s| - 1]) + (s[|s| - 1] as int - '0' as int)
  }

  const MIN_BUSINESS_DATE := "2000-01-01"
  const MAX_BUSINESS_DATE := "2100-01-01"

  predicate DateShape(s: string) {
    |s| == 10 && Digits(s[..4]) && s[4] == '-' && Digits(s[5..7]) && s[7] == '-' && Digits(s[8..])
  }

  predicate Leap(y: nat) { y % 4 == 0 && (y % 100 != 0 || y % 400 == 0) }

  function DaysIn(y: nat, m: nat): nat {
    if m == 2 then (if Leap(y) then 29 else 28) else if m in {4, 6, 9, 11} then 30 else 31
  }

  predicate RealDay(y: nat, m: nat, d: nat) { 1 <= m <= 12 && 1 <= d <= DaysIn(y, m) }

  /** HH:mm, HH:mm:ss or HH:mm:ss.f with one to six digits */
  predicate Clock(s: string) {
    && |s| >= 5 && Digits(s[..2]) && s[2] == ':' && Digits(s[3..5])
    && (|s| == 5 || (|s| >= 8 && s[5] == ':' && Digits(s[6..8])
                     && (|s| == 8 || (s[8] == '.' && 10 <= |s| <= 15 && Digits(s[9..])))))
  }

  predicate Zone(s: string) {
    || s == "Z"
    || (|s| >= 1 && (s[0] == '+' || s[0] == '-')
        && ((|s| == 5 && Digits(s[1..])) || (|s| == 6 && Digits(s[1..3]) && s[3] == ':' && Digits(s[4..]))))
  }

  predicate LocalTail(s: string) { |s| >= 1 && (s[0] == 'T' || s[0] == ' ') && Clock(s[1..]) }

  predicate ZonedTail(s: string) {
    |s| >= 1 && s[0] == 'T' && exists k :: 1 <= k <= |s| && Clock(s[1..k]) && Zone(s[k..])
  }

  function Checked(day: string): Option<string>
    requires DateShape(day)
  {
    if !RealDay(Value(day[..4]), Value(day[5..7]), Value(day[8..])) then None
    else if Less(day, MIN_BUSINESS_DATE) || !Less(day, MAX_BUSINESS_DATE) then None
    else Some(day)
  }

  /** A calendar day, or the day of an instant however it is written; no time zone is ever applied. */
  function ParseBusinessDate(s: string): Option<string> {
    if DateShape(s) then Checked(s)
    else if |s| > 10 && DateShape(s[..10]) && (LocalTail(s[10..]) || ZonedTail(s[10..])) then Checked(s[..10])
    else None
  }

  /** The day is taken literally off the front of what was sent, and parsing it again changes nothing. */
  lemma ParsingIsIdempotent(s: string)
    requires ParseBusinessDate(s).Some?
    ensures var d := ParseBusinessDate(s).value;
            && |s| >= 10 && d == s[..10] && DateShape(d) && ParseBusinessDate(d) == Some(d)
            && RealDay(Value(d[..4]), Value(d[5..7]), Value(d[8..]))
            && !Less(d, MIN_BUSINESS_DATE) && Less(d, MAX_BUSINESS_DATE)
  {
    assert |s| == 10 ==> s[..10] == s;
  }

  // ------------------------------------------------------------------ what is accepted

  /** Character by character, '#' standing for a digit and every other character for itself. */
  predicate Fits(s: string, pattern: string) {
    |s| == |pattern|
    && forall i :: 0 <= i < |s| ==> if pattern[i] == '#' then '0' <= s[i] <= '9' else s[i] == pattern[i]
  }

  /** A time of day to the minute or the second, or with so many decimals. */
  predicate TimeFits(s: string) {
    || Fits(s, "##:##") || Fits(s, "##:##:##") || Fits(s, "##:##:##.#") || Fits(s, "##:##:##.##")
    || Fits(s, "##:##:##.###") || Fits(s, "##:##:##.####") || Fits(s, "##:##:##.#####") || Fits(s, "##:##:##.######")
  }

  predicate OffsetFits(s: string) {
    || Fits(s, "Z") || Fits(s, "+####") || Fits(s, "-####") || Fits(s, "+##:##") || Fits(s, "-##:##")
  }

  lemma SecondsFit(s: string, pattern: string, n: nat)
    requires 1 <= n <= 6 && |pattern| == 9 + n && pattern[..9] == "##:##:##."
    requires forall i :: 9 <= i < |pattern| ==> pattern[i] == '#'
    ensures Fits(s, pattern) <==> |s| == 9 + n && Clock(s)
  {
    if |s| == 9 + n {
      assert forall i :: 0 <= i < 9 ==> pattern[i] == pattern[..9][i];
      if Clock(s) {
        assert forall i :: 9 <= i < |s| ==> s[i] == s[9..][i - 9];
        assert s[0] == s[..2][0] && s[1] == s[..2][1] && s[3] == s[3..5][0] && s[4] == s[3..5][1];
        assert s[6] == s[6..8][0] && s[7] == s[6..8][1];
      }
    }
  }

  lemma MinutesFit(s: string)
    ensures Fits(s, "##:##") <==> |s| == 5 && Clock(s)
    ensures Fits(s, "##:##:##") <==> |s| == 8 && Clock(s)
  {
    if Clock(s) {
      assert s[0] == s[..2][0] && s[1] == s[..2][1] && s[3] == s[3..5][0] && s[4] == s[3..5][1];
      if |s| >= 8 { assert s[6] == s[6..8][0] && s[7] == s[6..8][1]; }
    }
  }

  lemma TimeIs(s: string)
    ensures Clock(s) <==> TimeFits(s)
  {
    SecondsFit(s, "##:##:##.#", 1);
    SecondsFit(s, "##:##:##.##", 2);
    SecondsFit(s, "##:##:##.###", 3);
    SecondsFit(s, "##:##:##.####", 4);
    SecondsFit(s, "##:##:##.#####", 5);
    SecondsFit(s, "##:##:##.######", 6);
    MinutesFit(s);
  }

  lemma OffsetIs(s: string)
    ensures Zone(s) <==> OffsetFits(s)
  {
    if |s| == 5 {
      assert forall i :: 1 <= i < 5 ==> s[i] == s[1..][i - 1];
    } else if |s| == 6 {
      assert s[1] == s[1..3][0] && s[2] == s[1..3][1] && s[4] == s[4..][0] && s[5] == s[4..][1];
    }
  }

  lemma ShapeIs(s: string)
    ensures DateShape(s) <==> Fits(s, "####-##-##")
  {
    if |s| == 10 {
      assert forall i :: 0 <= i < 4 ==> s[i] == s[..4][i];
      assert s[5] == s[5..7][0] && s[6] == s[5..7][1] && s[8] == s[8..][0] && s[9] == s[8..][1];
    }
  }

  /** A month's last day, February's by the Gregorian rule. */
  predicate OnCalendar(y: nat, m: nat, d: nat) {
    && d >= 1
    && (|| (m in {1, 3, 5, 7, 8, 10, 12} && d <= 31)
        || (m in {4, 6, 9, 11} && d <= 30)
        || (m == 2 && d <= 28)
        || (m == 2 && d == 29 && y % 4 == 0 && (y % 100 == 0 ==> y % 400 == 0)))
  }

  lemma {:induction false} ValueOfPadded(n: nat, w: nat)
    requires n < Pow10(w)
    ensures Digits(Padded(n, w)) && Value(Padded(n, w)) == n
  {
    if w > 0 {
      ValueOfPadded(n / 10, w - 1);
      var p := Padded(n, w);
      assert p[..|p| - 1] == Padded(n / 10, w - 1);
    }
  }

  /** Nothing after the day, a time of day after a T or a space, or one after a T with an offset. */
  predicate TailFits(s: string) {
    || s == ""
    || ((s[0] == 'T' || s[0] == ' ') && TimeFits(s[1..]))
    || (s[0] == 'T' && exists k :: 1 <= k <= |s| && TimeFits(s[1..k]) && OffsetFits(s[k..]))
  }

  lemma TailIs(s: string)
    requires s != ""
    ensures LocalTail(s) || ZonedTail(s) <==> TailFits(s)
  {
    TimeIs(s[1..]);
    forall k | 1 <= k <= |s| ensures Clock(s[1..k]) && Zone(s[k..]) <==> TimeFits(s[1..k]) && OffsetFits(s[k..]) {
      TimeIs(s[1..k]);
      OffsetIs(s[k..]);
    }
  }

  /** A string is accepted exactly if it starts with a day of the calendar from 2000 to 2099 and goes on as stated. */
  lemma AcceptedIff(s: string)
    ensures ParseBusinessDate(s).Some? <==>
              && |s| >= 10 && Fits(s[..10], "####-##-##") && TailFits(s[10..])
              && Digits(s[..4]) && Digits(s[5..7]) && Digits(s[8..10])
              && OnCalendar(Value(s[..4]), Value(s[5..7]), Value(s[8..10]))
              && !Less(s[..10], MIN_BUSINESS_DATE) && Less(s[..10], MAX_BUSINESS_DATE)
  {
    if |s| >= 10 {
      var day := s[..10];
      ShapeIs(day);
      assert day[..4] == s[..4] && day[5..7] == s[5..7] && day[8..] == s[8..10];
      if |s| == 10 {
        assert day == s && s[10..] == "";
      } else {
        TailIs(s[10..]);
      }
    }
  }

  lemma {:induction false} DigitsSort(a: string, b: string)
    requires |a| == |b| && Digits(a) && Digits(b)
    ensures Less(a, b) <==> Value(a) < Value(b)
    ensures a == b <==> Value(a) == Value(b)
  {
    if a != [] {
      var n := |a| - 1;
      var x, y := [a[n]], [b[n]];
      DigitsSort(a[..n], b[..n]);
      LessByParts(a[..n], b[..n], x, y);
      assert a == a[..n] + x && b == b[..n] + y;
      assert Less(x, y) <==> a[n] < b[n] by { assert x[1..] == [] && y[1..] == []; }
    }
  }

  lemma LessSplit(a: string, b: string, k: nat)
    requires |a| == |b| && k <= |a|
    ensures Less(a, b) <==> Less(a[..k], b[..k]) || (a[..k] == b[..k] && Less(a[k..], b[k..]))
  {
    LessByParts(a[..k], b[..k], a[k..], b[k..]);
    assert a == a[..k] + a[k..] && b == b[..k] + b[k..];
  }

  /** Two numbers of one width, each followed by the same separator. */
  lemma NumberFirst(a: string, b: string, w: nat)
    requires |a| == |b| > w && Digits(a[..w]) && Digits(b[..w]) && a[w] == b[w]
    ensures Less(a, b)
       <==> Value(a[..w]) < Value(b[..w]) || (Value(a[..w]) == Value(b[..w]) && Less(a[w + 1..], b[w + 1..]))
  {
    LessSplit(a, b, w);
    DigitsSort(a[..w], b[..w]);
    LessSplit(a[w..], b[w..], 1);
    assert a[w..][1..] == a[w + 1..] && b[w..][1..] == b[w + 1..];
    assert a[w..][..1] == [a[w]] == b[w..][..1];
    LessIrreflexive([a[w]]);
  }

  /** Dates of that shape, compared as strings, compare by year, month and day. */
  lemma DatesSortAsDays(a: string, b: string)
    requires DateShape(a) && DateShape(b)
    ensures var (ya, ma, da) := (Value(a[..4]), Value(a[5..7]), Value(a[8..]));
            var (yb, mb, db) := (Value(b[..4]), Value(b[5..7]), Value(b[8..]));
            Less(a, b) <==> ya < yb || (ya == yb && (ma < mb || (ma == mb && da < db)))
  {
    NumberFirst(a, b, 4);
    assert a[5..][..2] == a[5..7] && b[5..][..2] == b[5..7];
    assert a[5..][3..] == a[8..] && b[5..][3..] == b[8..];
    NumberFirst(a[5..], b[5..], 2);
    DigitsSort(a[8..], b[8..]);
  }
}
