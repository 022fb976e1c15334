/** Naive `datetime.datetime` values with whole seconds: the `timedelta` arithmetic the file
    names rely on, the `strftime` renderings they use, and a strict fixed-width stand-in for
    `strptime` with the format `%Y-%m-%d %H:%M:%S`. */
module Timestamps {
  import opened Wrappers
  import opened Strings
  import opened Calendar

  datatype DateTime = DateTime(date: Date, hour: int, minute: int, second: int)

  predicate ValidDateTime(t: DateTime) {
    ValidDate(t.date) && 0 <= t.hour < 24 && 0 <= t.minute < 60 && 0 <= t.second < 60
  }

  /** `t.time()` as seconds after midnight. */
  function ClockSeconds(t: DateTime): int {
    t.hour * 3600 + t.minute * 60 + t.second
  }

  /** The position of `t` on the time line, in seconds from the start of day number 0. */
  function Timeline(t: DateTime): int
    requires ValidDateTime(t)
  {
    ToOrdinal(t.date) * 86400 + ClockSeconds(t)
  }

  lemma ClockRange(t: DateTime)
    requires ValidDateTime(t)
    ensures 0 <= ClockSeconds(t) < 86400
  {
  }

  lemma {:induction false} MulMonotonic(a: int, b: int, k: nat)
    requires a <= b
    ensures a * k <= b * k
    decreases b - a
  {
    if a < b {
      MulMonotonic(a + 1, b, k);
      assert (a + 1) * k == a * k + k;
    }
  }

  /** Quotient and remainder by a positive `k` are unique. */
  lemma DivUnique(q1: int, r1: int, q2: int, r2: int, k: nat)
    requires k > 0 && 0 <= r1 < k && 0 <= r2 < k
    requires q1 * k + r1 == q2 * k + r2
    ensures q1 == q2 && r1 == r2
  {
    if q1 < q2 {
      assert (q1 + 1) * k == q1 * k + k;
      MulMonotonic(q1 + 1, q2, k);
    } else if q2 < q1 {
      assert (q2 + 1) * k == q2 * k + k;
      MulMonotonic(q2 + 1, q1, k);
    }
  }

  lemma ClockUnique(a: DateTime, b: DateTime)
    requires ValidDateTime(a) && ValidDateTime(b) && ClockSeconds(a) == ClockSeconds(b)
    ensures a.hour == b.hour && a.minute == b.minute && a.second == b.second
  {
    DivUnique(a.hour, a.minute * 60 + a.second, b.hour, b.minute * 60 + b.second, 3600);
    DivUnique(a.minute, a.second, b.minute, b.second, 60);
  }

  /** Two valid date-times at the same point of the time line are equal. */
  lemma TimelineInjective(a: DateTime, b: DateTime)
    requires ValidDateTime(a) && ValidDateTime(b) && Timeline(a) == Timeline(b)
    ensures a == b
  {
    ClockRange(a);
    ClockRange(b);
    DivUnique(ToOrdinal(a.date), ClockSeconds(a), ToOrdinal(b.date), ClockSeconds(b), 86400);
    OrdinalInjective(a.date, b.date);
    ClockUnique(a, b);
  }

  /** The date-time at a point of the time line. */
  function FromTimeline(n: int): (t: DateTime)
    ensures ValidDateTime(t) && Timeline(t) == n
  {
    var s := n % 86400;
    DateTime(FromOrdinal(n / 86400), s / 3600, s % 3600 / 60, s % 60)
  }

  /** `t + timedelta(seconds=off)`: the date-time exactly `off` seconds later on the time line
      (earlier when `off` is negative), carrying across days, months and years. */
  function AddSeconds(t: DateTime, off: int): (r: DateTime)
    requires ValidDateTime(t)
    ensures ValidDateTime(r)
    ensures Timeline(r) == Timeline(t) + off
  {
    FromTimeline(Timeline(t) + off)
  }

  lemma AddSecondsZero(t: DateTime)
    requires ValidDateTime(t)
    ensures AddSeconds(t, 0) == t
  {
    TimelineInjective(AddSeconds(t, 0), t);
  }

  /** Two offsets in a row are one offset by their sum. */
  lemma AddSecondsCompose(t: DateTime, a: int, b: int)
    requires ValidDateTime(t)
    ensures AddSeconds(AddSeconds(t, a), b) == AddSeconds(t, a + b)
  {
    TimelineInjective(AddSeconds(AddSeconds(t, a), b), AddSeconds(t, a + b));
  }

  /** An offset that stays within the day changes only the clock, by exactly `off`. */
  lemma AddSecondsSameDay(t: DateTime, off: int)
    requires ValidDateTime(t)
    requires 0 <= ClockSeconds(t) + off < 86400
    ensures AddSeconds(t, off).date == t.date
    ensures ClockSeconds(AddSeconds(t, off)) == ClockSeconds(t) + off
  {
    var r := AddSeconds(t, off);
    ClockRange(r);
    DivUnique(ToOrdinal(r.date), ClockSeconds(r), ToOrdinal(t.date), ClockSeconds(t) + off, 86400);
    OrdinalInjective(r.date, t.date);
  }

  /** One day later is the calendar's next day at the same clock time. */
  lemma AddOneDay(t: DateTime)
    requires ValidDateTime(t)
    ensures AddSeconds(t, 86400) == t.(date := NextDay(t.date))
  {
    NextDayOrdinal(t.date);
    TimelineInjective(AddSeconds(t, 86400), t.(date := NextDay(t.date)));
  }

  /** One day earlier is the calendar's previous day at the same clock time: across the first of
      a month, the first of March after a leap February, and New Year. */
  lemma SubtractOneDay(t: DateTime)
    requires ValidDateTime(t)
    ensures AddSeconds(t, -86400) == t.(date := PrevDay(t.date))
  {
    PrevDayOrdinal(t.date);
    TimelineInjective(AddSeconds(t, -86400), t.(date := PrevDay(t.date)));
  }

  /** The date whose folder a picture taken at `t` goes to, when the day starts `start` seconds
      after midnight: `t - timedelta(days=1)` taken before the start, `t` itself otherwise. */
  function FolderDate(t: DateTime, start: int): (d: Date)
    requires ValidDateTime(t)
    ensures ValidDate(d)
  {
    if ClockSeconds(t) < start then AddSeconds(t, -86400).date else t.date
  }

  /** The folder date is the previous calendar day exactly when the clock is before the start. */
  lemma FolderDateRule(t: DateTime, start: int)
    requires ValidDateTime(t)
    ensures FolderDate(t, start) == if ClockSeconds(t) < start then PrevDay(t.date) else t.date
  {
    SubtractOneDay(t);
  }

  // ----- strftime -----

  /** `%Y`: four digits. Python's `datetime` has no years outside 1..9999; see the README. */
  function YearText(y: int): string {
    PadTo(if y < 0 then 0 else y, 4)
  }

  /** `%m`, `%d`, `%H`, `%M`, `%S`: two digits. */
  function TwoDigits(n: int): string {
    PadTo(if n < 0 then 0 else n, 2)
  }

  /** `strftime("%Y%m%d")`. */
  function CompactDate(d: Date): string {
    YearText(d.year) + TwoDigits(d.month) + TwoDigits(d.day)
  }

  /** `strftime("%Y-%m-%d")`. */
  function DashedDate(d: Date): string {
    YearText(d.year) + "-" + TwoDigits(d.month) + "-" + TwoDigits(d.day)
  }

  /** `strftime("%Y%m%d-%H%M%S")`. */
  function Stamp(t: DateTime): string {
    CompactDate(t.date) + "-" + TwoDigits(t.hour) + TwoDigits(t.minute) + TwoDigits(t.second)
  }

  /** `strftime("%d %H:%M:%S")`: the part after the month that both forms below share. */
  function DayAndClock(t: DateTime): string {
    TwoDigits(t.date.day) + " " + TwoDigits(t.hour) + ":" + TwoDigits(t.minute) + ":"
      + TwoDigits(t.second)
  }

  /** `strftime("%Y-%m-%d %H:%M:%S")`, the form `strptime` reads back. */
  function IsoText(t: DateTime): string {
    YearText(t.date.year) + "-" + TwoDigits(t.date.month) + "-" + DayAndClock(t)
  }

  /** `strftime("%Y:%m:%d %H:%M:%S")`, the form EXIF stores. */
  function ExifText(t: DateTime): string {
    YearText(t.date.year) + ":" + TwoDigits(t.date.month) + ":" + DayAndClock(t)
  }

  predicate InYearRange(d: Date) { 1 <= d.year <= 9999 }

  lemma YearTextValue(y: int)
    requires 1 <= y <= 9999
    ensures |YearText(y)| == 4 && (forall i :: 0 <= i < 4 ==> IsDigit(YearText(y)[i]))
    ensures DecimalValue(YearText(y)) == y
  {
    PadToValue(y, 4);
  }

  lemma TwoDigitsValue(n: int)
    requires 0 <= n <= 99
    ensures |TwoDigits(n)| == 2 && (forall i :: 0 <= i < 2 ==> IsDigit(TwoDigits(n)[i]))
    ensures DecimalValue(TwoDigits(n)) == n
  {
    PadToValue(n, 2);
  }

  lemma DateFieldsValue(d: Date)
    requires ValidDate(d) && InYearRange(d)
    ensures |YearText(d.year)| == 4 && |TwoDigits(d.month)| == 2 && |TwoDigits(d.day)| == 2
    ensures forall i :: 0 <= i < 4 ==> IsDigit(YearText(d.year)[i])
    ensures forall i :: 0 <= i < 2 ==> IsDigit(TwoDigits(d.month)[i])
    ensures forall i :: 0 <= i < 2 ==> IsDigit(TwoDigits(d.day)[i])
    ensures DecimalValue(YearText(d.year)) == d.year
    ensures DecimalValue(TwoDigits(d.month)) == d.month
    ensures DecimalValue(TwoDigits(d.day)) == d.day
  {
    YearTextValue(d.year);
    TwoDigitsValue(d.month);
    TwoDigitsValue(d.day);
  }

  /** `%Y%m%d` is eight digits that read back as year, month and day. */
  lemma CompactDateShape(d: Date)
    requires ValidDate(d) && InYearRange(d)
    ensures var r := CompactDate(d);
      |r| == 8 && (forall i :: 0 <= i < 8 ==> IsDigit(r[i]))
      && DecimalValue(r[..4]) == d.year && DecimalValue(r[4..6]) == d.month
      && DecimalValue(r[6..]) == d.day
  {
    DateFieldsValue(d);
    var r := CompactDate(d);
    assert r[..4] == YearText(d.year);
    assert r[4..6] == TwoDigits(d.month);
    assert r[6..] == TwoDigits(d.day);
  }

  /** `%Y-%m-%d` is `%Y%m%d` with a dash after the year and after the month. */
  lemma DashedDateShape(d: Date)
    requires ValidDate(d) && InYearRange(d)
    ensures var c := CompactDate(d);
      |c| == 8 && DashedDate(d) == c[..4] + "-" + c[4..6] + "-" + c[6..]
  {
    DateFieldsValue(d);
    var c := CompactDate(d);
    assert c[..4] == YearText(d.year);
    assert c[4..6] == TwoDigits(d.month);
    assert c[6..] == TwoDigits(d.day);
  }

  lemma ClockFieldsValue(t: DateTime)
    requires ValidDateTime(t)
    ensures |TwoDigits(t.hour)| == 2 && |TwoDigits(t.minute)| == 2 && |TwoDigits(t.second)| == 2
    ensures forall i :: 0 <= i < 2 ==> IsDigit(TwoDigits(t.hour)[i])
    ensures forall i :: 0 <= i < 2 ==> IsDigit(TwoDigits(t.minute)[i])
    ensures forall i :: 0 <= i < 2 ==> IsDigit(TwoDigits(t.second)[i])
    ensures DecimalValue(TwoDigits(t.hour)) == t.hour
    ensures DecimalValue(TwoDigits(t.minute)) == t.minute
    ensures DecimalValue(TwoDigits(t.second)) == t.second
  {
    TwoDigitsValue(t.hour);
    TwoDigitsValue(t.minute);
    TwoDigitsValue(t.second);
  }

  /** The file-name prefix `%Y%m%d-%H%M%S` is fifteen characters: the compact date, a dash at
      index 8, and six digits that read back as hour, minute and second. */
  lemma StampShape(t: DateTime)
    requires ValidDateTime(t) && InYearRange(t.date)
    ensures var r := Stamp(t);
      |r| == 15 && r[..8] == CompactDate(t.date) && r[8] == '-'
      && (forall i :: 9 <= i < 15 ==> IsDigit(r[i]))
      && DecimalValue(r[9..11]) == t.hour && DecimalValue(r[11..13]) == t.minute
      && DecimalValue(r[13..]) == t.second
  {
    CompactDateShape(t.date);
    ClockFieldsValue(t);
    var r := Stamp(t);
    assert r[9..11] == TwoDigits(t.hour);
    assert r[11..13] == TwoDigits(t.minute);
    assert r[13..] == TwoDigits(t.second);
  }

  // ----- strptime -----

  /** Why `strptime` refuses a string, in the order Python checks: the text does not fit the
      format (including fields out of the ranges the format accepts), then the `date` and
      `datetime` constructors refuse year 0, a day past the month's end, and a leap second. */
  datatype ParseError = Mismatch(text: string) | YearZero | DayOutOfRange | SecondOutOfRange

  /** The text of the `ValueError` Python raises. */
  function ErrorText(e: ParseError): string {
    match e
    case Mismatch(text) => "time data '" + text + "' does not match format '%Y-%m-%d %H:%M:%S'"
    case YearZero => "year 0 is out of range"
    case DayOutOfRange => "day is out of range for month"
    case SecondOutOfRange => "second must be in 0..59"
  }

  predicate DigitsAt(s: string, i: nat, j: nat) {
    i <= j <= |s| && forall k :: i <= k < j ==> IsDigit(s[k])
  }

  function NumberAt(s: string, i: nat, j: nat): nat
    requires DigitsAt(s, i, j)
  {
    DecimalValue(s[i..j])
  }

  /** Nineteen characters laid out as `DDDD-DD-DD DD:DD:DD`. */
  predicate FixedShape(s: string) {
    |s| == 19 && DigitsAt(s, 0, 4) && s[4] == '-' && DigitsAt(s, 5, 7) && s[7] == '-'
    && DigitsAt(s, 8, 10) && s[10] == ' ' && DigitsAt(s, 11, 13) && s[13] == ':'
    && DigitsAt(s, 14, 16) && s[16] == ':' && DigitsAt(s, 17, 19)
  }

  /** `datetime.strptime(s, "%Y-%m-%d %H:%M:%S")` for fixed-width fields. The format's own
      patterns accept months 1..12, days 1..31, hours 0..23, minutes 0..59 and seconds 0..61. */
  function ParseStrict(s: string): (r: Result<DateTime, ParseError>)
    ensures r.Ok? ==> ValidDateTime(r.value) && InYearRange(r.value.date)
  {
    if !FixedShape(s) then Err(Mismatch(s))
    else
      var year, month, day := NumberAt(s, 0, 4), NumberAt(s, 5, 7), NumberAt(s, 8, 10);
      var hour, minute, second := NumberAt(s, 11, 13), NumberAt(s, 14, 16), NumberAt(s, 17, 19);
      DecimalBound(s[0..4]);
      if !(1 <= month <= 12 && 1 <= day <= 31 && hour <= 23 && minute <= 59 && second <= 61) then
        Err(Mismatch(s))
      else if year == 0 then Err(YearZero)
      else if day > DaysInMonth(year, month) then Err(DayOutOfRange)
      else if second >= 60 then Err(SecondOutOfRange)
      else Ok(DateTime(Date(year, month, day), hour, minute, second))
  }

  /** What `ParseStrict` accepts it reads back exactly: formatting the result gives the text. */
  lemma ParseThenFormat(s: string)
    requires ParseStrict(s).Ok?
    ensures IsoText(ParseStrict(s).value) == s
  {
    var t := ParseStrict(s).value;
    PadToDecimal(s[0..4]);
    PadToDecimal(s[5..7]);
    PadToDecimal(s[8..10]);
    PadToDecimal(s[11..13]);
    PadToDecimal(s[14..16]);
    PadToDecimal(s[17..19]);
    assert DayAndClock(t) == s[8..19] by {
      IsoTail(s);
    }
    assert s == s[0..4] + "-" + s[5..7] + "-" + s[8..19];
  }

  lemma IsoTail(s: string)
    requires FixedShape(s)
    ensures s[8..19] == s[8..10] + " " + s[11..13] + ":" + s[14..16] + ":" + s[17..19]
  {
  }

  /** Every date-time of years 1..9999, written out, parses back to itself. */
  lemma FormatThenParse(t: DateTime)
    requires ValidDateTime(t) && InYearRange(t.date)
    ensures ParseStrict(IsoText(t)) == Ok(t)
  {
    DateFieldsValue(t.date);
    ClockFieldsValue(t);
    var s := IsoText(t);
    assert s[0..4] == YearText(t.date.year);
    assert s[5..7] == TwoDigits(t.date.month);
    assert s[8..10] == TwoDigits(t.date.day);
    assert s[11..13] == TwoDigits(t.hour);
    assert s[14..16] == TwoDigits(t.minute);
    assert s[17..19] == TwoDigits(t.second);
    assert FixedShape(s);
  }

  /** `s[:n]`. */
  function Head(s: string, n: nat): (r: string)
    ensures |r| == if |s| < n then |s| else n
  {
    s[..if |s| < n then |s| else n]
  }

  /** The EXIF form `YYYY:MM:DD ...` made readable by the dashed format: when index 4 holds a
      colon (and so the first ten characters hold one), the first two colons become dashes. */
  function Normalized(s: string): string {
    if ':' in Head(s, 10) && |s| > 4 && s[4] == ':' then ReplaceFirst(s, ':', '-', 2) else s
  }

  /** The date an EXIF date string gives: only its first 19 characters are parsed. */
  function ParseExifDate(raw: string): Result<DateTime, ParseError> {
    ParseStrict(Head(Normalized(raw), 19))
  }

  /** Whatever follows the first 19 characters (sub-seconds, a time zone) is ignored. */
  lemma ExifDateIgnoresTail(s: string, tail: string)
    requires |s| >= 19
    ensures ParseExifDate(s + tail) == ParseExifDate(s)
  {
    var st := s + tail;
    assert Head(st, 10) == Head(s, 10);
    if ':' in Head(s, 10) && |s| > 4 && s[4] == ':' {
      ReplaceFirstPrefix(s, tail, ':', '-', 2);
      assert Head(Normalized(st), 19) == Head(Normalized(s), 19);
    } else {
      assert Head(Normalized(st), 19) == Head(Normalized(s), 19);
    }
  }

  lemma NoColonInDigits(s: string)
    requires forall i :: 0 <= i < |s| ==> IsDigit(s[i])
    ensures ':' !in s
  {
  }

  lemma Regroup(y: string, c: char, mo: string, rest: string)
    ensures y + [c] + mo + [c] + rest == y + ([c] + (mo + ([c] + rest)))
  {
  }

  /** Replacing the first two colons of `y:mo:rest`, when `y` and `mo` hold none, gives
      `y-mo-rest`. */
  lemma ReplaceTwoSeparators(y: string, mo: string, rest: string)
    requires ':' !in y && ':' !in mo
    ensures ReplaceFirst(y + ":" + mo + ":" + rest, ':', '-', 2) == y + "-" + mo + "-" + rest
  {
    Regroup(y, ':', mo, rest);
    Regroup(y, '-', mo, rest);
    ReplaceFirstSkip(y, [':'] + (mo + ([':'] + rest)), ':', '-', 2);
    ReplaceFirstHit(mo + ([':'] + rest), ':', '-', 2);
    ReplaceFirstSkip(mo, [':'] + rest, ':', '-', 1);
    ReplaceFirstHit(rest, ':', '-', 1);
    ReplaceFirstNone(rest, ':', '-');
  }

  /** Replacing the first two colons turns the EXIF form into the dashed form. */
  lemma ExifToIso(t: DateTime)
    requires ValidDateTime(t) && InYearRange(t.date)
    ensures ReplaceFirst(ExifText(t), ':', '-', 2) == IsoText(t)
  {
    DateFieldsValue(t.date);
    NoColonInDigits(YearText(t.date.year));
    NoColonInDigits(TwoDigits(t.date.month));
    ReplaceTwoSeparators(YearText(t.date.year), TwoDigits(t.date.month), DayAndClock(t));
  }

  /** The colon form and the dash form of the same date-time give that date-time, whatever
      follows them. */
  lemma ExifDateBothForms(t: DateTime, tail: string)
    requires ValidDateTime(t) && InYearRange(t.date)
    ensures ParseExifDate(IsoText(t) + tail) == Ok(t)
    ensures ParseExifDate(ExifText(t) + tail) == Ok(t)
  {
    IsoTextParses(t);
    ExifTextParses(t);
    ExifDateIgnoresTail(IsoText(t), tail);
    ExifDateIgnoresTail(ExifText(t), tail);
  }

  lemma TextsLength(t: DateTime)
    requires ValidDateTime(t) && InYearRange(t.date)
    ensures |IsoText(t)| == 19 && |ExifText(t)| == 19
    ensures IsoText(t)[4] == '-' && ExifText(t)[4] == ':'
  {
    DateFieldsValue(t.date);
    ClockFieldsValue(t);
  }

  lemma IsoTextParses(t: DateTime)
    requires ValidDateTime(t) && InYearRange(t.date)
    ensures ParseExifDate(IsoText(t)) == Ok(t)
  {
    TextsLength(t);
    FormatThenParse(t);
    assert Head(IsoText(t), 19) == IsoText(t);
  }

  lemma ExifTextParses(t: DateTime)
    requires ValidDateTime(t) && InYearRange(t.date)
    ensures ParseExifDate(ExifText(t)) == Ok(t)
  {
    TextsLength(t);
    var exif := ExifText(t);
    assert exif[4] in Head(exif, 10);
    ExifToIso(t);
    assert Normalized(exif) == IsoText(t);
    IsoTextParses(t);
    assert Head(IsoText(t), 19) == IsoText(t);
  }
}
