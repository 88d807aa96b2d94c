/**
 timestampFormatForDB and the order of the texts it prints.  An instant counts from the start
 of year 0 in UTC; the layout "2006-01-02 15:04:05.000000+00:00" has a fixed width for every
 field and a literal offset.
 */
module Timestamps {
  import opened Arithmetic
  import opened Calendar
  import Decimal

  const MICROS_PER_SECOND: nat := 1_000_000
  const NANOS_PER_MICRO: nat := 1_000
  const NANOS_PER_SECOND: nat := 1_000_000_000
  const LAST: nat := DAYS * 24 * 60 * 60 * MICROS_PER_SECOND

  /** Microseconds within the years 0 to 9999. */
  type micros = t: nat | t < LAST

  type nanos = t: nat | t < LAST * NANOS_PER_MICRO

  // Text with fields of fixed width.

  /** Go's zero-padded number: the last `width` decimal digits. */
  function Padded(n: nat, width: nat): (s: string)
    ensures |s| == width
  {
    if width == 0 then [] else Padded(n / 10, width - 1) + [Decimal.DigitChar(n % 10)]
  }

  function Power10(width: nat): (p: nat)
    ensures p > 0
  {
    if width == 0 then 1 else 10 * Power10(width - 1)
  }

  /** One field of a layout: how many digits, and the literal text after them. */
  datatype Chunk = Chunk(width: nat, literal: string)

  const DATE_LAYOUT: seq<Chunk> := [Chunk(4, "-"), Chunk(2, "-"), Chunk(2, " ")]
  const CLOCK_LAYOUT: seq<Chunk> := [Chunk(2, ":"), Chunk(2, ":"), Chunk(2, "."), Chunk(6, "+00:00")]
  const LAYOUT: seq<Chunk> := DATE_LAYOUT + CLOCK_LAYOUT

  function Text(fields: seq<nat>, layout: seq<Chunk>): string
    requires |fields| == |layout|
  {
    if fields == [] then []
    else Padded(fields[0], layout[0].width) + (layout[0].literal + Text(fields[1..], layout[1..]))
  }

  predicate Fits(fields: seq<nat>, layout: seq<Chunk>) {
    |fields| == |layout| && forall i :: 0 <= i < |fields| ==> fields[i] < Power10(layout[i].width)
  }

  /** Byte by byte, as text columns compare. */
  predicate TextLess(a: string, b: string) {
    if b == [] then false
    else if a == [] then true
    else a[0] < b[0] || (a[0] == b[0] && TextLess(a[1..], b[1..]))
  }

  predicate FieldsLess(a: seq<nat>, b: seq<nat>) {
    if b == [] then false
    else if a == [] then true
    else a[0] < b[0] || (a[0] == b[0] && FieldsLess(a[1..], b[1..]))
  }

  lemma {:induction false} TextLessSplit(a: string, b: string, c: string, d: string)
    requires |a| == |b|
    ensures TextLess(a + c, b + d) <==> TextLess(a, b) || (a == b && TextLess(c, d))
    ensures a + c == b + d <==> a == b && c == d
  {
    if a == [] {
      assert a + c == c && b + d == d;
    } else {
      TextLessSplit(a[1..], b[1..], c, d);
      assert (a + c)[1..] == a[1..] + c && (b + d)[1..] == b[1..] + d;
      assert a == [a[0]] + a[1..] && b == [b[0]] + b[1..];
      assert a + c == [a[0]] + (a[1..] + c) && b + d == [b[0]] + (b[1..] + d);
    }
  }

  /** Padded numbers compare as the numbers do. */
  lemma {:induction false} PaddedKeepsOrder(m: nat, n: nat, width: nat)
    requires m < Power10(width) && n < Power10(width)
    ensures TextLess(Padded(m, width), Padded(n, width)) <==> m < n
    ensures Padded(m, width) == Padded(n, width) <==> m == n
  {
    if width > 0 {
      PaddedKeepsOrder(m / 10, n / 10, width - 1);
      var a, b := [Decimal.DigitChar(m % 10)], [Decimal.DigitChar(n % 10)];
      TextLessSplit(Padded(m / 10, width - 1), Padded(n / 10, width - 1), a, b);
      MixedRadix(m, n, 10);
      assert TextLess(a, b) <==> m % 10 < n % 10;
    }
  }

  /** For any layout of fixed-width fields, texts compare as the fields do, most significant first. */
  lemma {:induction false} LayoutKeepsOrder(a: seq<nat>, b: seq<nat>, layout: seq<Chunk>)
    requires Fits(a, layout) && Fits(b, layout)
    ensures TextLess(Text(a, layout), Text(b, layout)) <==> FieldsLess(a, b)
    ensures Text(a, layout) == Text(b, layout) <==> a == b
  {
    if a != [] {
      FitsTail(a, layout);
      FitsTail(b, layout);
      LayoutKeepsOrder(a[1..], b[1..], layout[1..]);
      FieldKeepsOrder(a[0], b[0], layout[0], Text(a[1..], layout[1..]), Text(b[1..], layout[1..]));
      TextHead(a, layout);
      TextHead(b, layout);
      assert a == [a[0]] + a[1..] && b == [b[0]] + b[1..];
    }
  }

  lemma FitsTail(fields: seq<nat>, layout: seq<Chunk>)
    requires Fits(fields, layout) && fields != []
    ensures fields[0] < Power10(layout[0].width) && Fits(fields[1..], layout[1..])
  {
  }

  lemma TextHead(fields: seq<nat>, layout: seq<Chunk>)
    requires |fields| == |layout| && fields != []
    ensures Text(fields, layout) ==
            Padded(fields[0], layout[0].width) + (layout[0].literal + Text(fields[1..], layout[1..]))
  {
  }

  /** One field in front of two texts: the field decides, and the rest only if the fields are equal. */
  lemma FieldKeepsOrder(m: nat, n: nat, chunk: Chunk, x: string, y: string)
    requires m < Power10(chunk.width) && n < Power10(chunk.width)
    ensures var s, t := Padded(m, chunk.width) + (chunk.literal + x), Padded(n, chunk.width) + (chunk.literal + y);
            && (TextLess(s, t) <==> m < n || (m == n && TextLess(x, y)))
            && (s == t <==> m == n && x == y)
  {
    PaddedKeepsOrder(m, n, chunk.width);
    if m == n {
      IsNotLess(Padded(m, chunk.width));
    }
    SameLiteral(Padded(m, chunk.width), Padded(n, chunk.width), chunk.literal, x, y);
  }

  lemma SameLiteral(p: string, q: string, literal: string, x: string, y: string)
    requires |p| == |q|
    ensures TextLess(p + (literal + x), q + (literal + y)) <==> TextLess(p, q) || (p == q && TextLess(x, y))
    ensures p + (literal + x) == q + (literal + y) <==> p == q && x == y
  {
    TextLessSplit(literal, literal, x, y);
    IsNotLess(literal);
    TextLessSplit(p, q, literal + x, literal + y);
  }

  lemma {:induction false} IsNotLess(s: string)
    ensures !TextLess(s, s)
  {
    if s != [] {
      IsNotLess(s[1..]);
    }
  }

  // The fields of an instant.

  datatype Time = Time(day: nat, hour: nat, minute: nat, second: nat, micro: nat)

  function TimeOf(t: nat): (r: Time)
    ensures r.hour < 24 && r.minute < 60 && r.second < 60 && r.micro < MICROS_PER_SECOND
  {
    var seconds := t / MICROS_PER_SECOND;
    var minutes := seconds / 60;
    var hours := minutes / 60;
    Time(hours / 24, hours % 24, minutes % 60, seconds % 60, t % MICROS_PER_SECOND)
  }

  function Clock(t: Time): seq<nat> {
    [t.hour, t.minute, t.second, t.micro]
  }

  function Fields(t: nat): seq<nat> {
    var time := TimeOf(t);
    var date := DateOf(time.day);
    [date.year, date.month, date.day] + Clock(time)
  }

  lemma TimeKeepsOrder(a: nat, b: nat)
    ensures var s, t := TimeOf(a), TimeOf(b);
            && (a < b <==> s.day < t.day || (s.day == t.day && FieldsLess(Clock(s), Clock(t))))
            && (a == b <==> s.day == t.day && Clock(s) == Clock(t))
  {
    MixedRadix(a, b, MICROS_PER_SECOND);
    var secondsA, secondsB := a / MICROS_PER_SECOND, b / MICROS_PER_SECOND;
    MixedRadix(secondsA, secondsB, 60);
    MixedRadix(secondsA / 60, secondsB / 60, 60);
    MixedRadix(secondsA / 60 / 60, secondsB / 60 / 60, 24);
    var s, t := Clock(TimeOf(a)), Clock(TimeOf(b));
    FieldsLessOfFour(s, t);
  }

  lemma FieldsLessOfFour(s: seq<nat>, t: seq<nat>)
    requires |s| == |t| == 4
    ensures FieldsLess(s, t) <==>
            || s[0] < t[0]
            || (s[0] == t[0] && (s[1] < t[1] || (s[1] == t[1] && (s[2] < t[2] || (s[2] == t[2] && s[3] < t[3])))))
    ensures s == t <==> s[0] == t[0] && s[1] == t[1] && s[2] == t[2] && s[3] == t[3]
  {
    HeadFirst(s[3], t[3], [], []);
    HeadFirst(s[2], t[2], [s[3]], [t[3]]);
    HeadFirst(s[1], t[1], [s[2], s[3]], [t[2], t[3]]);
    HeadFirst(s[0], t[0], [s[1], s[2], s[3]], [t[1], t[2], t[3]]);
    assert [s[3]] + [] == [s[3]] && [t[3]] + [] == [t[3]];
    assert [s[2]] + [s[3]] == [s[2], s[3]] && [t[2]] + [t[3]] == [t[2], t[3]];
    assert [s[1]] + [s[2], s[3]] == [s[1], s[2], s[3]] && [t[1]] + [t[2], t[3]] == [t[1], t[2], t[3]];
    assert [s[0]] + [s[1], s[2], s[3]] == s && [t[0]] + [t[1], t[2], t[3]] == t;
  }

  lemma HeadFirst(x: nat, y: nat, a: seq<nat>, b: seq<nat>)
    ensures FieldsLess([x] + a, [y] + b) <==> x < y || (x == y && FieldsLess(a, b))
    ensures [x] + a == [y] + b <==> x == y && a == b
  {
    assert ([x] + a)[1..] == a && ([y] + b)[1..] == b;
  }

  lemma DateFirst(a: seq<nat>, b: seq<nat>, c: seq<nat>, d: seq<nat>)
    requires |a| == |b| == 3
    ensures FieldsLess(a + c, b + d) <==>
            || a[0] < b[0]
            || (a[0] == b[0] && (a[1] < b[1] || (a[1] == b[1] && (a[2] < b[2] || (a[2] == b[2] && FieldsLess(c, d))))))
    ensures a + c == b + d <==> a == b && c == d
  {
    HeadFirst(a[2], b[2], c, d);
    HeadFirst(a[1], b[1], [a[2]] + c, [b[2]] + d);
    HeadFirst(a[0], b[0], [a[1]] + ([a[2]] + c), [b[1]] + ([b[2]] + d));
    assert a + c == [a[0]] + ([a[1]] + ([a[2]] + c)) && b + d == [b[0]] + ([b[1]] + ([b[2]] + d));
  }

  lemma FieldsKeepOrder(a: nat, b: nat)
    ensures FieldsLess(Fields(a), Fields(b)) <==> a < b
    ensures Fields(a) == Fields(b) <==> a == b
  {
    var s, t := TimeOf(a), TimeOf(b);
    var p, q := DateOf(s.day), DateOf(t.day);
    TimeKeepsOrder(a, b);
    DatesKeepOrder(s.day, t.day);
    DateFirst([p.year, p.month, p.day], [q.year, q.month, q.day], Clock(s), Clock(t));
  }

  lemma FieldsFit(t: micros)
    ensures Fits(Fields(t), LAYOUT)
  {
    var day := TimeOf(t).day;
    DayInRange(t);
    FourDigitYears(day);
    assert MonthLength(DateOf(day).year, DateOf(day).month) <= 31;
    assert Power10(2) == 100 && Power10(4) == 100 * Power10(2) && Power10(6) == 100 * Power10(4);
  }

  lemma DayInRange(t: micros)
    ensures TimeOf(t).day < DAYS
  {
    QuotientBelow(t, MICROS_PER_SECOND, DAYS * 24 * 60 * 60);
    QuotientBelow(t / MICROS_PER_SECOND, 60, DAYS * 24 * 60);
    QuotientBelow(t / MICROS_PER_SECOND / 60, 60, DAYS * 24);
    QuotientBelow(t / MICROS_PER_SECOND / 60 / 60, 24, DAYS);
  }

  /** The text of an instant with microseconds, as rows carry it. */
  function Format(t: micros): string {
    FieldsFit(t);
    Text(Fields(t), LAYOUT)
  }

  /** Texts are ordered as the instants are, and equal only for equal instants. */
  lemma FormatKeepsOrder(a: micros, b: micros)
    ensures TextLess(Format(a), Format(b)) <==> a < b
    ensures Format(a) == Format(b) <==> a == b
  {
    FieldsFit(a);
    FieldsFit(b);
    LayoutKeepsOrder(Fields(a), Fields(b), LAYOUT);
    FieldsKeepOrder(a, b);
  }

  lemma TimeOfParts(t: nat, day: nat, hour: nat, minute: nat, second: nat, micro: nat)
    requires hour < 24 && minute < 60 && second < 60 && micro < MICROS_PER_SECOND
    requires t == (((day * 24 + hour) * 60 + minute) * 60 + second) * MICROS_PER_SECOND + micro
    ensures TimeOf(t) == Time(day, hour, minute, second, micro)
  {
    QuotientIs(t, MICROS_PER_SECOND, ((day * 24 + hour) * 60 + minute) * 60 + second, micro);
  }

  /** The fields of an instant are the date and the time of day it is made of. */
  lemma FieldsOfParts(t: nat, date: Date, hour: nat, minute: nat, second: nat, micro: nat)
    requires IsDate(date) && hour < 24 && minute < 60 && second < 60 && micro < MICROS_PER_SECOND
    requires t == (((DayNumber(date) * 24 + hour) * 60 + minute) * 60 + second) * MICROS_PER_SECOND + micro
    ensures Fields(t) == [date.year, date.month, date.day, hour, minute, second, micro]
  {
    TimeOfParts(t, DayNumber(date), hour, minute, second, micro);
    DateRoundTrip(date);
  }

  // The layout's literals, pinned by the one time whose text is known.

  const REFERENCE_TIME: string := "2006-01-02 15:04:05.000000+00:00"

  function Spell(digits: seq<string>, layout: seq<Chunk>): string
    requires |digits| == |layout|
  {
    if digits == [] then [] else digits[0] + (layout[0].literal + Spell(digits[1..], layout[1..]))
  }

  lemma {:induction false} TextIsSpelled(fields: seq<nat>, digits: seq<string>, layout: seq<Chunk>)
    requires |fields| == |digits| == |layout|
    requires forall i :: 0 <= i < |fields| ==> Padded(fields[i], layout[i].width) == digits[i]
    ensures Text(fields, layout) == Spell(digits, layout)
  {
    if fields != [] {
      TextIsSpelled(fields[1..], digits[1..], layout[1..]);
    }
  }

  lemma TwoDigits(n: nat)
    ensures Padded(n, 2) == [Decimal.DigitChar(n / 10 % 10), Decimal.DigitChar(n % 10)]
  {
    assert Padded(n / 10, 1) == Padded(n / 10 / 10, 0) + [Decimal.DigitChar(n / 10 % 10)];
  }

  lemma TwoMoreDigits(n: nat, width: nat)
    ensures Padded(n, width + 2) == Padded(n / 10 / 10, width) + Padded(n, 2)
  {
    TwoDigits(n);
    assert Padded(n / 10, width + 1) == Padded(n / 10 / 10, width) + [Decimal.DigitChar(n / 10 % 10)];
  }

  lemma ReferenceDigits()
    ensures Padded(1, 2) == "01" && Padded(2, 2) == "02" && Padded(15, 2) == "15"
    ensures Padded(4, 2) == "04" && Padded(5, 2) == "05"
  {
    TwoDigits(1);
    TwoDigits(2);
    TwoDigits(15);
    TwoDigits(4);
    TwoDigits(5);
  }

  lemma LongReferenceDigits()
    ensures Padded(2006, 4) == "2006" && Padded(0, 6) == "000000"
  {
    TwoDigits(20);
    TwoDigits(2006);
    TwoMoreDigits(2006, 2);
    TwoDigits(0);
    TwoMoreDigits(0, 2);
    TwoMoreDigits(0, 4);
  }

  const DATE_DIGITS: seq<string> := ["2006", "01", "02"]
  const CLOCK_DIGITS: seq<string> := ["15", "04", "05", "000000"]

  lemma {:induction false} SpellConcat(a: seq<string>, b: seq<string>, front: seq<Chunk>, back: seq<Chunk>)
    requires |a| == |front| && |b| == |back|
    ensures Spell(a + b, front + back) == Spell(a, front) + Spell(b, back)
  {
    if a == [] {
      assert a + b == b && front + back == back;
    } else {
      SpellConcat(a[1..], b, front[1..], back);
      assert (a + b)[1..] == a[1..] + b && (front + back)[1..] == front[1..] + back;
      assert (a + b)[0] == a[0] && (front + back)[0] == front[0];
    }
  }

  lemma SpellDate()
    ensures Spell(DATE_DIGITS, DATE_LAYOUT) == "2006-01-02 "
  {
  }

  lemma SpellClock()
    ensures Spell(CLOCK_DIGITS, CLOCK_LAYOUT) == "15:04:05.000000+00:00"
  {
  }

  lemma SpellReference()
    ensures Spell(DATE_DIGITS + CLOCK_DIGITS, LAYOUT) == REFERENCE_TIME
  {
    SpellDate();
    SpellClock();
    SpellConcat(DATE_DIGITS, CLOCK_DIGITS, DATE_LAYOUT, CLOCK_LAYOUT);
  }

  lemma SpellFields(fields: seq<nat>)
    requires |fields| == 7
    requires Padded(fields[0], 4) == "2006" && Padded(fields[1], 2) == "01" && Padded(fields[2], 2) == "02"
    requires Padded(fields[3], 2) == "15" && Padded(fields[4], 2) == "04" && Padded(fields[5], 2) == "05"
    requires Padded(fields[6], 6) == "000000"
    ensures Text(fields, LAYOUT) == REFERENCE_TIME
  {
    TextIsSpelled(fields, DATE_DIGITS + CLOCK_DIGITS, LAYOUT);
    SpellReference();
  }

  /** January 2nd 2006, 15:04:05 prints as the layout itself, which is how layouts are written. */
  lemma ReferenceText(fields: seq<nat>)
    requires |fields| == 7 && fields[0] == 2006 && fields[1] == 1 && fields[2] == 2
    requires fields[3] == 15 && fields[4] == 4 && fields[5] == 5 && fields[6] == 0
    ensures Text(fields, LAYOUT) == REFERENCE_TIME
  {
    ReferenceDigits();
    LongReferenceDigits();
    SpellFields(fields);
  }

  // Bounds lose what is below the second.

  function TruncateToSecond(t: nanos): (r: nanos)
    ensures r <= t < r + 1_000_000_000 && r % 1_000_000_000 == 0
  {
    t - t % NANOS_PER_SECOND
  }

  function ToMicros(t: nanos): micros {
    t / NANOS_PER_MICRO
  }

  function TimestampFormatForDB(t: nanos): string {
    Format(ToMicros(TruncateToSecond(t)))
  }

  lemma SecondsAreWholeMicros(t: nanos)
    ensures ToMicros(TruncateToSecond(t)) * NANOS_PER_MICRO == TruncateToSecond(t)
  {
    var q := t / NANOS_PER_SECOND;
    assert TruncateToSecond(t) == q * NANOS_PER_SECOND;
    assert TruncateToSecond(t) / NANOS_PER_MICRO == q * MICROS_PER_SECOND;
  }

  /** Bounds are printed without a fraction. */
  lemma BoundHasNoFraction(t: nanos)
    ensures TimeOf(ToMicros(TruncateToSecond(t))).micro == 0
    ensures ToMicros(TruncateToSecond(t)) == t / 1_000_000_000 * 1_000_000
  {
    SecondsAreWholeMicros(t);
  }

  /** The printed bounds compare as the times cut to the second do. */
  lemma BoundsKeepOrder(a: nanos, b: nanos)
    ensures TextLess(TimestampFormatForDB(a), TimestampFormatForDB(b)) <==> TruncateToSecond(a) < TruncateToSecond(b)
    ensures TimestampFormatForDB(a) == TimestampFormatForDB(b) <==> TruncateToSecond(a) == TruncateToSecond(b)
  {
    SecondsAreWholeMicros(a);
    SecondsAreWholeMicros(b);
    FormatKeepsOrder(ToMicros(TruncateToSecond(a)), ToMicros(TruncateToSecond(b)));
  }

  predicate AtMost(a: string, b: string) {
    a == b || TextLess(a, b)
  }

  /**
   What the two bounds let through, exactly: everything up to, and everything from, the start
   of the bound's second.
   */
  lemma BoundIsItsSecond(row: micros, bound: nanos)
    ensures AtMost(Format(row), TimestampFormatForDB(bound)) <==> row * NANOS_PER_MICRO <= TruncateToSecond(bound)
    ensures AtMost(TimestampFormatForDB(bound), Format(row)) <==> TruncateToSecond(bound) <= row * NANOS_PER_MICRO
  {
    SecondsAreWholeMicros(bound);
    FormatKeepsOrder(row, ToMicros(TruncateToSecond(bound)));
    FormatKeepsOrder(ToMicros(TruncateToSecond(bound)), row);
  }
}
