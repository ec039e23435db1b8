/** The stored timestamps: ISO 8601 text of UTC instants, compared as text by every query. */
module Timestamps {
  import opened QueueTypes
  import opened TextOrder

  /** A UTC date and time of Python's range, to the microsecond. */
  datatype Instant = Instant(year: nat, month: nat, day: nat, hour: nat, minute: nat, second: nat, micro: nat) {
    predicate Valid() {
      && 1 <= year <= 9999 && 1 <= month <= 12 && 1 <= day <= 31
      && hour < 24 && minute < 60 && second < 60 && micro < 1_000_000
    }

    /** The fields in decreasing weight. */
    function Fields(): seq<nat> {
      [year, month, day, hour, minute, second, micro]
    }
  }

  predicate Earlier(a: seq<nat>, b: seq<nat>)
    requires |a| == |b|
  {
    a != [] && (a[0] < b[0] || (a[0] == b[0] && Earlier(a[1..], b[1..])))
  }

  function Digit(d: nat): char
    requires d < 10
  {
    '0' + d as char
  }

  function Power10(w: nat): nat {
    if w == 0 then 1 else 10 * Power10(w - 1)
  }

  /** A number in decimal, zero-padded to `w` digits. */
  function Digits(n: nat, w: nat): (s: string)
    ensures |s| == w
  {
    if w == 0 then "" else Digits(n / 10, w - 1) + [Digit(n % 10)]
  }

  /** `isoformat()` of a UTC datetime: the fraction is left out when it is zero. */
  function Render(t: Instant): string {
    Digits(t.year, 4) + "-" + Digits(t.month, 2) + "-" + Digits(t.day, 2) + "T"
    + Digits(t.hour, 2) + ":" + Digits(t.minute, 2) + ":" + Digits(t.second, 2) + Tail(t.micro)
  }

  function Tail(micro: nat): string {
    if micro == 0 then "+00:00" else "." + Digits(micro, 6) + "+00:00"
  }

  // ----- fixed-width numbers ---------------------------------------------------------------

  /** Zero-padded numbers of one width sort as numbers, and determine the number. */
  lemma {:induction false} DigitsSort(m: nat, n: nat, w: nat)
    requires m < Power10(w) && n < Power10(w)
    ensures TextLess(Digits(m, w), Digits(n, w)) <==> m < n
    ensures Digits(m, w) == Digits(n, w) <==> m == n
    decreases w
  {
    if w > 0 {
      DigitsSort(m / 10, n / 10, w - 1);
      var a, b := Digits(m / 10, w - 1), Digits(n / 10, w - 1);
      ByFields(a, [Digit(m % 10)], b, [Digit(n % 10)]);
      assert Digits(m, w)[..w - 1] == a && Digits(n, w)[..w - 1] == b;
      assert Digits(m, w)[w - 1] == Digit(m % 10) && Digits(n, w)[w - 1] == Digit(n % 10);
    }
  }

  /** A field with the text that follows it. */
  lemma FieldSorts(m: nat, x: string, n: nat, y: string, w: nat)
    requires m < Power10(w) && n < Power10(w)
    ensures TextLess(Digits(m, w) + x, Digits(n, w) + y) <==> m < n || (m == n && TextLess(x, y))
  {
    DigitsSort(m, n, w);
    ByFields(Digits(m, w), x, Digits(n, w), y);
  }

  /** A literal separator changes nothing. */
  lemma SeparatorSorts(sep: char, x: string, y: string)
    ensures TextLess([sep] + x, [sep] + y) <==> TextLess(x, y)
  {
    Irreflexive([sep]);
    ByFields([sep], x, [sep], y);
  }

  /** The optional fraction still sorts as a number, because '+' sorts before '.'. */
  lemma TailsSort(m: nat, n: nat)
    requires m < 1_000_000 && n < 1_000_000
    ensures TextLess(Tail(m), Tail(n)) <==> m < n
  {
    assert Power10(6) == 1_000_000;
    Irreflexive("+00:00");
    if m != 0 && n != 0 {
      var x, y := Digits(m, 6) + "+00:00", Digits(n, 6) + "+00:00";
      assert Tail(m) == ['.'] + x && Tail(n) == ['.'] + y;
      SeparatorSorts('.', x, y);
      FieldSorts(m, "+00:00", n, "+00:00", 6);
    }
  }

  /** The text from one separator on: a field, then what follows. */
  function Part(sep: char, n: nat, rest: string): string {
    [sep] + (Digits(n, 2) + rest)
  }

  lemma PartSorts(sep: char, m: nat, x: string, n: nat, y: string)
    requires m < 100 && n < 100
    ensures TextLess(Part(sep, m, x), Part(sep, n, y)) <==> m < n || (m == n && TextLess(x, y))
  {
    assert Power10(2) == 100;
    SeparatorSorts(sep, Digits(m, 2) + x, Digits(n, 2) + y);
    FieldSorts(m, x, n, y, 2);
  }

  function FromMinute(t: Instant): string {
    Part(':', t.minute, Part(':', t.second, Tail(t.micro)))
  }

  function FromDay(t: Instant): string {
    Part('-', t.day, Part('T', t.hour, FromMinute(t)))
  }

  lemma RenderNested(t: Instant)
    ensures Render(t) == Digits(t.year, 4) + Part('-', t.month, FromDay(t))
  {
    var parts := Part('-', t.month, FromDay(t));
    assert FromMinute(t) == ":" + Digits(t.minute, 2) + ":" + Digits(t.second, 2) + Tail(t.micro);
    assert FromDay(t) == "-" + Digits(t.day, 2) + "T" + Digits(t.hour, 2) + FromMinute(t);
    assert parts == "-" + Digits(t.month, 2) + FromDay(t);
  }

  /** Text order of timestamps is chronological order, fractions left out or not. */
  lemma TimestampsSort(a: Instant, b: Instant)
    requires a.Valid() && b.Valid()
    ensures TextLess(Render(a), Render(b)) <==> Earlier(a.Fields(), b.Fields())
  {
    RenderNested(a);
    RenderNested(b);
    assert Power10(4) == 10000;
    FieldSorts(a.year, Part('-', a.month, FromDay(a)), b.year, Part('-', b.month, FromDay(b)), 4);
    PartSorts('-', a.month, FromDay(a), b.month, FromDay(b));
    PartSorts('-', a.day, Part('T', a.hour, FromMinute(a)), b.day, Part('T', b.hour, FromMinute(b)));
    PartSorts('T', a.hour, FromMinute(a), b.hour, FromMinute(b));
    PartSorts(':', a.minute, Part(':', a.second, Tail(a.micro)), b.minute, Part(':', b.second, Tail(b.micro)));
    PartSorts(':', a.second, Tail(a.micro), b.second, Tail(b.micro));
    TailsSort(a.micro, b.micro);
    EarlierByFields(a, b);
  }

  lemma EarlierByFields(a: Instant, b: Instant)
    ensures Earlier(a.Fields(), b.Fields())
       <==> a.year < b.year || (a.year == b.year && (
              a.month < b.month || (a.month == b.month && (
              a.day < b.day || (a.day == b.day && (
              a.hour < b.hour || (a.hour == b.hour && (
              a.minute < b.minute || (a.minute == b.minute && (
              a.second < b.second || (a.second == b.second && a.micro < b.micro)))))))))))
  {
    EarlierStep(a.year, [a.month, a.day, a.hour, a.minute, a.second, a.micro],
                b.year, [b.month, b.day, b.hour, b.minute, b.second, b.micro]);
    EarlierStep(a.month, [a.day, a.hour, a.minute, a.second, a.micro], b.month, [b.day, b.hour, b.minute, b.second, b.micro]);
    EarlierStep(a.day, [a.hour, a.minute, a.second, a.micro], b.day, [b.hour, b.minute, b.second, b.micro]);
    EarlierTime(a, b);
  }

  lemma EarlierTime(a: Instant, b: Instant)
    ensures Earlier([a.hour, a.minute, a.second, a.micro], [b.hour, b.minute, b.second, b.micro])
       <==> a.hour < b.hour || (a.hour == b.hour && (
              a.minute < b.minute || (a.minute == b.minute && (
              a.second < b.second || (a.second == b.second && a.micro < b.micro)))))
  {
    EarlierStep(a.hour, [a.minute, a.second, a.micro], b.hour, [b.minute, b.second, b.micro]);
    EarlierStep(a.minute, [a.second, a.micro], b.minute, [b.second, b.micro]);
    EarlierStep(a.second, [a.micro], b.second, [b.micro]);
    EarlierStep(a.micro, [], b.micro, []);
  }

  lemma EarlierStep(m: nat, x: seq<nat>, n: nat, y: seq<nat>)
    requires |x| == |y|
    ensures Earlier([m] + x, [n] + y) <==> m < n || (m == n && Earlier(x, y))
  {
    assert ([m] + x)[1..] == x && ([n] + y)[1..] == y;
  }

  /** Two instants render alike only if they are the same. */
  lemma TimestampsAreFaithful(a: Instant, b: Instant)
    requires a.Valid() && b.Valid() && Render(a) == Render(b)
    ensures a == b
  {
    TimestampsSort(a, b);
    TimestampsSort(b, a);
    Irreflexive(Render(a));
    EarlierByFields(a, b);
    EarlierByFields(b, a);
  }

  // ----- text against numbers --------------------------------------------------------------

  predicate Leap(year: nat) {
    year % 4 == 0 && (year % 100 != 0 || year % 400 == 0)
  }

  function DaysIn(year: nat, month: nat): nat {
    if month in {4, 6, 9, 11} then 30 else if month != 2 then 31 else if Leap(year) then 29 else 28
  }

  /** Days before 1 January of a year, counted from year 1. */
  function BeforeYear(year: nat): int
    requires 1 <= year
  {
    365 * (year - 1) + (year - 1) / 4 - (year - 1) / 100 + (year - 1) / 400
  }

  function BeforeMonth(year: nat, month: nat): nat {
    if month <= 1 then 0 else BeforeMonth(year, month - 1) + DaysIn(year, month - 1)
  }

  predicate IsDate(t: Instant) {
    t.Valid() && t.day <= DaysIn(t.year, t.month)
  }

  function Days(t: Instant): int
    requires t.Valid()
  {
    BeforeYear(t.year) + BeforeMonth(t.year, t.month) + t.day - 1
  }

  function SecondOfDay(t: Instant): nat {
    (t.hour * 60 + t.minute) * 60 + t.second
  }

  /** The instant as the queue's `Time`: microseconds since a fixed moment. */
  function Microseconds(t: Instant): Time
    requires t.Valid()
  {
    (Days(t) * 86_400 + SecondOfDay(t)) * SECOND + t.micro
  }

  lemma NextMultiple(n: nat, k: nat)
    requires 1 <= n && k in {4, 100, 400}
    ensures n / k == (n - 1) / k + if n % k == 0 then 1 else 0
  {
  }

  lemma Multiples(year: nat)
    ensures year % 400 == 0 ==> year % 100 == 0
    ensures year % 100 == 0 ==> year % 4 == 0
  {
    if year % 400 == 0 {
      assert year == 100 * (4 * (year / 400));
    }
    if year % 100 == 0 {
      assert year == 4 * (25 * (year / 100));
    }
  }

  lemma YearLength(year: nat)
    requires 1 <= year
    ensures BeforeYear(year + 1) == BeforeYear(year) + (if Leap(year) then 366 else 365)
  {
    NextMultiple(year, 4);
    NextMultiple(year, 100);
    NextMultiple(year, 400);
    Multiples(year);
  }

  lemma {:induction false} YearsGrow(a: nat, b: nat)
    requires 1 <= a <= b
    ensures BeforeYear(a) <= BeforeYear(b)
    decreases b
  {
    if a < b {
      YearsGrow(a, b - 1);
      YearLength(b - 1);
    }
  }

  lemma {:induction false} MonthsGrow(year: nat, a: nat, b: nat)
    requires a <= b
    ensures BeforeMonth(year, a) <= BeforeMonth(year, b)
    decreases b
  {
    if a < b {
      MonthsGrow(year, a, b - 1);
    }
  }

  lemma MonthsOfYear(year: nat)
    ensures BeforeMonth(year, 13) == if Leap(year) then 366 else 365
  {
    assert BeforeMonth(year, 2) == 31;
    assert BeforeMonth(year, 4) == BeforeMonth(year, 3) + 31 == 62 + DaysIn(year, 2);
    assert BeforeMonth(year, 7) == BeforeMonth(year, 6) + 30 == BeforeMonth(year, 4) + 91;
    assert BeforeMonth(year, 10) == BeforeMonth(year, 9) + 30 == BeforeMonth(year, 7) + 92;
    assert BeforeMonth(year, 13) == BeforeMonth(year, 12) + 31 == BeforeMonth(year, 10) + 92;
  }

  /** The date fields order days as their numbers do. */
  lemma EarlierDay(a: Instant, b: Instant)
    requires IsDate(a) && IsDate(b)
    requires a.year < b.year || (a.year == b.year && (a.month < b.month || (a.month == b.month && a.day < b.day)))
    ensures Days(a) < Days(b)
  {
    if a.year < b.year {
      YearLength(a.year);
      MonthsOfYear(a.year);
      MonthsGrow(a.year, a.month + 1, 13);
      YearsGrow(a.year + 1, b.year);
    } else {
      MonthsGrow(a.year, a.month + 1, if a.month < b.month then b.month else a.month + 1);
    }
  }

  lemma SameDay(a: Instant, b: Instant)
    requires IsDate(a) && IsDate(b)
    ensures Days(a) < Days(b)
       <==> a.year < b.year || (a.year == b.year && (a.month < b.month || (a.month == b.month && a.day < b.day)))
    ensures Days(a) == Days(b) <==> a.year == b.year && a.month == b.month && a.day == b.day
  {
    if a.year == b.year && a.month == b.month && a.day == b.day {
      assert Days(a) == Days(b);
    } else if a.year < b.year || (a.year == b.year && (a.month < b.month || (a.month == b.month && a.day < b.day))) {
      EarlierDay(a, b);
    } else {
      EarlierDay(b, a);
    }
  }

  lemma EarlierSecond(a: Instant, b: Instant)
    requires a.Valid() && b.Valid()
    ensures SecondOfDay(a) < SecondOfDay(b)
       <==> a.hour < b.hour || (a.hour == b.hour && (a.minute < b.minute || (a.minute == b.minute && a.second < b.second)))
    ensures SecondOfDay(a) == SecondOfDay(b) <==> a.hour == b.hour && a.minute == b.minute && a.second == b.second
    ensures SecondOfDay(a) < 86_400
  {
  }

  lemma EarlierMicrosecond(a: Instant, b: Instant)
    requires a.Valid() && b.Valid()
    ensures Microseconds(a) < Microseconds(b)
       <==> || Days(a) < Days(b)
            || (Days(a) == Days(b) && (SecondOfDay(a) < SecondOfDay(b)
                                       || (SecondOfDay(a) == SecondOfDay(b) && a.micro < b.micro)))
  {
    EarlierSecond(a, b);
    EarlierSecond(b, a);
  }

  /** The comparisons the queries make on text are the comparisons the model makes on numbers. */
  lemma TimestampsAreTimes(a: Instant, b: Instant)
    requires IsDate(a) && IsDate(b)
    ensures TextLess(Render(a), Render(b)) <==> Microseconds(a) < Microseconds(b)
    ensures Render(a) == Render(b) <==> Microseconds(a) == Microseconds(b)
  {
    TimestampsSort(a, b);
    EarlierByFields(a, b);
    SameDay(a, b);
    EarlierSecond(a, b);
    EarlierMicrosecond(a, b);
    if Render(a) == Render(b) {
      TimestampsAreFaithful(a, b);
    }
    if Microseconds(a) == Microseconds(b) {
      EarlierMicrosecond(b, a);
      SameDay(b, a);
      EarlierSecond(b, a);
    }
  }

  // ----- reading a timestamp back ----------------------------------------------------------

  predicate IsNumeral(s: string) {
    forall k | 0 <= k < |s| :: '0' <= s[k] <= '9'
  }

  /** The value of a numeral. */
  function ValueOf(s: string): int
    requires IsNumeral(s)
  {
    if s == "" then 0 else 10 * ValueOf(s[..|s| - 1]) + (s[|s| - 1] as int - '0' as int)
  }

  lemma {:induction false} DigitsRead(n: nat, w: nat)
    requires n < Power10(w)
    ensures IsNumeral(Digits(n, w)) && ValueOf(Digits(n, w)) == n
  {
    if w > 0 {
      DigitsRead(n / 10, w - 1);
      assert Digits(n, w)[..w - 1] == Digits(n / 10, w - 1);
    }
  }

  /** The piece of a timestamp between two positions is the numeral of a field. */
  predicate Says(s: string, from: nat, to: nat, n: nat) {
    from <= to <= |s| && IsNumeral(s[from..to]) && ValueOf(s[from..to]) == n
  }

  lemma PieceSays(before: string, n: nat, w: nat, after: string)
    requires n < Power10(w)
    ensures Says(before + Digits(n, w) + after, |before|, |before| + w, n)
  {
    DigitsRead(n, w);
    assert (before + Digits(n, w) + after)[|before|..|before| + w] == Digits(n, w);
  }

  function DatePart(t: Instant): string {
    Digits(t.year, 4) + "-" + Digits(t.month, 2) + "-" + Digits(t.day, 2) + "T"
  }

  function TimePart(t: Instant): string {
    Digits(t.hour, 2) + ":" + Digits(t.minute, 2) + ":" + Digits(t.second, 2)
  }

  /** Three pieces with a character between each two of them, and something at the end. */
  lemma ThreePieces(a: string, x: char, b: string, y: char, c: string, end: string)
    ensures var s, n, m := a + [x] + b + [y] + c + end, |a| + 1, |a| + |b| + 2;
            && |s| == m + |c| + |end|
            && s[0..|a|] == a && s[|a|] == x && s[n..n + |b|] == b && s[n + |b|] == y && s[m..m + |c|] == c && s[m + |c|..] == end
  {
    var s := a + [x] + b + [y] + c + end;
    assert s == a + ([x] + b + [y] + c + end);
    assert s == (a + [x]) + b + ([y] + c + end);
    assert s == (a + [x] + b + [y]) + c + end;
  }

  lemma DateReads(t: Instant)
    requires t.Valid()
    ensures var d := DatePart(t);
            |d| == 11 && d[4] == '-' && d[7] == '-' && d[10] == 'T' && Says(d, 0, 4, t.year) && Says(d, 5, 7, t.month) && Says(d, 8, 10, t.day)
  {
    assert Power10(2) == 100 && Power10(4) == 100 * Power10(2);
    DigitsRead(t.year, 4);
    DigitsRead(t.month, 2);
    DigitsRead(t.day, 2);
    ThreePieces(Digits(t.year, 4), '-', Digits(t.month, 2), '-', Digits(t.day, 2), "T");
    assert DatePart(t)[10..][0] == 'T';
  }

  lemma TimeReads(t: Instant)
    requires t.Valid()
    ensures var d := TimePart(t);
            |d| == 8 && d[2] == ':' && d[5] == ':' && Says(d, 0, 2, t.hour) && Says(d, 3, 5, t.minute) && Says(d, 6, 8, t.second)
  {
    assert Power10(2) == 100;
    DigitsRead(t.hour, 2);
    DigitsRead(t.minute, 2);
    DigitsRead(t.second, 2);
    ThreePieces(Digits(t.hour, 2), ':', Digits(t.minute, 2), ':', Digits(t.second, 2), "");
    assert TimePart(t) == TimePart(t) + "";
  }

  lemma TailReads(micro: nat)
    requires micro < 1_000_000
    ensures micro == 0 ==> Tail(micro) == "+00:00"
    ensures micro > 0 ==> |Tail(micro)| == 13 && Tail(micro)[0] == '.' && Says(Tail(micro), 1, 7, micro) && Tail(micro)[7..] == "+00:00"
  {
    assert Power10(6) == 1000 * Power10(3) && Power10(3) == 1000;
    PieceSays(".", micro, 6, "+00:00");
    if micro > 0 {
      assert Tail(micro)[7..] == "+00:00";
    }
  }

  /** A timestamp is a date, a 'T', a time, and then either the offset alone or the microseconds and
      the offset; each piece reads back as its field. */
  lemma TimestampReadsBack(t: Instant)
    requires t.Valid()
    ensures Render(t) == DatePart(t) + TimePart(t) + Tail(t.micro)
    ensures var d := DatePart(t);
            |d| == 11 && d[4] == '-' && d[7] == '-' && d[10] == 'T' && Says(d, 0, 4, t.year) && Says(d, 5, 7, t.month) && Says(d, 8, 10, t.day)
    ensures var d := TimePart(t);
            |d| == 8 && d[2] == ':' && d[5] == ':' && Says(d, 0, 2, t.hour) && Says(d, 3, 5, t.minute) && Says(d, 6, 8, t.second)
    ensures t.micro == 0 ==> Tail(t.micro) == "+00:00"
    ensures var d := Tail(t.micro);
            t.micro > 0 ==> |d| == 13 && d[0] == '.' && Says(d, 1, 7, t.micro) && d[7..] == "+00:00"
  {
    DateReads(t);
    TimeReads(t);
    TailReads(t.micro);
    RenderInParts(t);
  }

  lemma RenderInParts(t: Instant)
    ensures Render(t) == DatePart(t) + TimePart(t) + Tail(t.micro)
  {
    var h, m, s := Digits(t.hour, 2), Digits(t.minute, 2), Digits(t.second, 2);
    assert Render(t) == DatePart(t) + h + ":" + m + ":" + s + Tail(t.micro);
    assert DatePart(t) + h + ":" + m + ":" + s == DatePart(t) + (h + ":" + m + ":" + s);
  }
}
