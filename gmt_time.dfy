/**
 * The one date layout the collector reads, Go's reference layout
 * "2 Jan 2006 15:04:05 GMT": a one- or two-digit day, a three-letter month
 * abbreviation, a four-digit year, a one- or two-digit hour, two-digit minutes
 * and seconds, and the literal text " GMT". The layout has no zone element, so
 * the time is read as UTC and converted to seconds since the epoch as POSIX
 * defines them (section 4.16 of the POSIX.1-2017 Base Definitions, "Seconds
 * Since the Epoch"): leap seconds do not exist and every day has 86400 seconds.
 */
module GmtTime {
  import opened Wrappers
  import opened Decimal

  /** A broken-down time of day in UTC, proleptic Gregorian calendar. */
  datatype DateTime = DateTime(year: int, month: int, day: int, hour: int, minute: int, second: int)

  /** Why a value does not match the layout. */
  datatype DateError =
    | CannotParse(rest: string, element: Chunk)  // `rest` does not start with layout chunk `element`
    | OutOfRange(field: Chunk)                   // the number read for chunk `field` is out of its range
    | ExtraText(rest: string)                    // the layout is used up and `rest` remains

  const ShortMonthNames: seq<string> :=
    ["Jan", "Feb", "Mar", "Apr", "May", "Jun", "Jul", "Aug", "Sep", "Oct", "Nov", "Dec"]

  predicate IsLeap(year: int) {
    year % 4 == 0 && (year % 100 != 0 || year % 400 == 0)
  }

  function DaysIn(month: int, year: int): (n: int)
    requires 1 <= month <= 12
    ensures 28 <= n <= 31
    ensures n == 29 <==> month == 2 && IsLeap(year)
  {
    if month == 2 then (if IsLeap(year) then 29 else 28)
    else if month == 4 || month == 6 || month == 9 || month == 11 then 30
    else 31
  }

  /** The fields fit the layout's elements: a four-digit year, a known month, two-digit day and clock fields in range. */
  predicate Spellable(t: DateTime) {
    && 0 <= t.year <= 9999
    && 1 <= t.month <= 12
    && 1 <= t.day <= 31
    && 0 <= t.hour < 24
    && 0 <= t.minute < 60
    && 0 <= t.second < 60
  }

  /** The times the layout can express: spellable, and the day exists in its month. */
  predicate Valid(t: DateTime) {
    Spellable(t) && t.day <= DaysIn(t.month, t.year)
  }

  // ---------------------------------------------------------------------------
  // Reading the layout, one element at a time, as Go's time.Parse does.

  /** A value read from the front of a string and what is left after it. */
  datatype Scanned<T> = Scanned(value: T, rest: string)

  /**
   * Go's getnum: one digit, or two when a second digit follows; `fixed`
   * (the zero-padded elements "04" and "05") demands two.
   */
  function GetNum(s: string, fixed: bool, element: Chunk): (r: Result<Scanned<nat>, DateError>)
    ensures r.Success? ==> r.value.value < 100
  {
    if |s| == 0 || !IsDigit(s[0]) then Failure(CannotParse(s, element))
    else if |s| == 1 || !IsDigit(s[1]) then
      if fixed then Failure(CannotParse(s, element))
      else Success(Scanned(DigitValue(s[0]), s[1..]))
    else Success(Scanned(DigitValue(s[0]) * 10 + DigitValue(s[1]), s[2..]))
  }

  /** The element "2006": exactly four digits. */
  function GetYear(s: string): (r: Result<Scanned<nat>, DateError>)
    ensures r.Success? ==> r.value.value <= 9999
  {
    if |s| < 4 || !IsDigit(s[0]) then Failure(CannotParse(s, LongYear))
    else match DigitsValue(s[..4])
      case None => Failure(CannotParse(s, LongYear))
      case Some(y) =>
        DigitsValueBound(s[..4]);
        Success(Scanned(y, s[4..]))
  }

  lemma {:induction false} DigitsValueBound(s: string)
    requires DigitsValue(s).Some?
    ensures DigitsValue(s).value < Power10(|s|)
  {
    if |s| > 1 {
      DigitsValueBound(s[..|s| - 1]);
    }
  }

  function Power10(n: nat): (p: nat)
    ensures p >= 1
  {
    if n == 0 then 1 else 10 * Power10(n - 1)
  }

  function Lower(c: char): char {
    if 'A' <= c <= 'Z' then (c as int + 32) as char else c
  }

  /** One byte of Go's time.match: equal, or the same ASCII letter in another case. */
  predicate SameLetter(a: char, b: char) {
    a == b || ('a' <= Lower(a) <= 'z' && Lower(a) == Lower(b))
  }

  /** Go's time.match: the strings agree letter by letter, ignoring ASCII case. */
  predicate SameLetters(a: string, b: string) {
    && |a| == |b|
    && forall i :: 0 <= i < |a| ==> SameLetter(a[i], b[i])
  }

  /** Go's time.lookup over the month abbreviations from index `i` on: the first that `s` starts with. */
  function LookupMonth(s: string, i: nat): (r: Result<Scanned<nat>, DateError>)
    requires i <= 12
    ensures r.Success? ==> i + 1 <= r.value.value <= 12
    decreases 12 - i
  {
    if i == 12 then Failure(CannotParse(s, MonthName))
    else if 3 <= |s| && SameLetters(s[..3], ShortMonthNames[i]) then Success(Scanned(i + 1, s[3..]))
    else LookupMonth(s, i + 1)
  }

  function CutSpace(s: string): (r: string)
    ensures |r| <= |s|
    ensures 0 < |s| && s[0] == ' ' ==> |r| < |s|
  {
    if 0 < |s| && s[0] == ' ' then CutSpace(s[1..]) else s
  }

  /**
   * Go's time.skip: consumes the literal `prefix` from `value`; a space in the
   * prefix matches a run of one or more spaces (or the end of the value).
   */
  function Skip(value: string, prefix: string): Option<string>
    decreases |prefix|
  {
    if |prefix| == 0 then Some(value)
    else if prefix[0] == ' ' then
      if 0 < |value| && value[0] != ' ' then None
      else Skip(CutSpace(value), CutSpace(prefix))
    else if |value| == 0 || value[0] != prefix[0] then None
    else Skip(value[1..], prefix[1..])
  }

  function Literal(value: string, prefix: string): Result<string, DateError> {
    match Skip(value, prefix)
    case None => Failure(CannotParse(value, Separator(prefix)))
    case Some(rest) => Success(rest)
  }

  /** The chunks of a layout: the elements Go's time.Parse recognises, and the literal text between them. */
  datatype Chunk =
    | Day                   // "2": one or two digits
    | MonthName             // "Jan": a month abbreviation
    | LongYear              // "2006": four digits
    | Hour                  // "15": one or two digits
    | ZeroMinute            // "04": two digits
    | ZeroSecond            // "05": two digits
    | Separator(literal: string)

  /** The layout "2 Jan 2006 15:04:05 GMT", cut into chunks. */
  const GmtLayout: seq<Chunk> :=
    [Day, Separator(" "), MonthName, Separator(" "), LongYear, Separator(" "), Hour, Separator(":"), ZeroMinute, Separator(":"), ZeroSecond, Separator(" GMT")]

  /** The fields before any chunk is read: Go starts month and day at -1, meaning "not given". */
  const Unset: DateTime := DateTime(0, -1, -1, 0, 0, 0)

  /** What the chunks read so far can leave in the fields. */
  predicate InRange(t: DateTime) {
    && 0 <= t.year <= 9999
    && (t.month == -1 || 1 <= t.month <= 12)
    && -1 <= t.day < 100
    && 0 <= t.hour < 24
    && 0 <= t.minute < 60
    && 0 <= t.second < 60
  }

  /**
   * One turn of Go's parse loop: reads chunk `c` from the front of `value` into
   * the fields. Hour, minute and second are range-checked as soon as they are read.
   */
  function ReadElement(c: Chunk, value: string, t: DateTime): (r: Result<Scanned<DateTime>, DateError>)
    requires !c.Separator? && InRange(t)
    ensures r.Success? ==> InRange(r.value.value)
  {
    match c
    case Day =>
      var day :- GetNum(value, false, Day);
      Success(Scanned(t.(day := day.value), day.rest))
    case MonthName =>
      var month :- LookupMonth(value, 0);
      Success(Scanned(t.(month := month.value), month.rest))
    case LongYear =>
      var year :- GetYear(value);
      Success(Scanned(t.(year := year.value), year.rest))
    case Hour =>
      var hour :- GetNum(value, false, Hour);
      if hour.value >= 24 then Failure(OutOfRange(Hour))
      else Success(Scanned(t.(hour := hour.value), hour.rest))
    case ZeroMinute =>
      var minute :- GetNum(value, true, ZeroMinute);
      if minute.value >= 60 then Failure(OutOfRange(ZeroMinute))
      else Success(Scanned(t.(minute := minute.value), minute.rest))
    case ZeroSecond =>
      var second :- GetNum(value, true, ZeroSecond);
      if second.value >= 60 then Failure(OutOfRange(ZeroSecond))
      else Success(Scanned(t.(second := second.value), second.rest))
  }

  /** Go's parse loop from chunk `i` of the layout to its end: the fields read and the text left over. */
  function Scan(i: nat, value: string, t: DateTime): (r: Result<Scanned<DateTime>, DateError>)
    requires i <= |GmtLayout| && InRange(t)
    ensures r.Success? ==> InRange(r.value.value)
    decreases |GmtLayout| - i, 2
  {
    if i == |GmtLayout| then Success(Scanned(t, value)) else Turn(i, value, t)
  }

  /** One turn of the loop: chunk `i` is literal text to skip or an element to read. */
  function Turn(i: nat, value: string, t: DateTime): (r: Result<Scanned<DateTime>, DateError>)
    requires i < |GmtLayout| && InRange(t)
    ensures r.Success? ==> InRange(r.value.value)
    decreases |GmtLayout| - i, 1
  {
    match GmtLayout[i]
    case Separator(literal) => SeparatorTurn(i, literal, value, t)
    case _ => ElementTurn(i, value, t)
  }

  /** Skips the literal text of chunk `i`, then goes on; text that does not match ends the loop. */
  function SeparatorTurn(i: nat, literal: string, value: string, t: DateTime): (r: Result<Scanned<DateTime>, DateError>)
    requires i < |GmtLayout| && InRange(t)
    ensures r.Success? ==> InRange(r.value.value)
    decreases |GmtLayout| - i, 0
  {
    var rest :- Literal(value, literal);
    Scan(i + 1, rest, t)
  }

  /** Reads the element of chunk `i`, then goes on; the first failure ends the loop. */
  function ElementTurn(i: nat, value: string, t: DateTime): (r: Result<Scanned<DateTime>, DateError>)
    requires i < |GmtLayout| && !GmtLayout[i].Separator? && InRange(t)
    ensures r.Success? ==> InRange(r.value.value)
    decreases |GmtLayout| - i, 0
  {
    var next :- ReadElement(GmtLayout[i], value, t);
    Scan(i + 1, next.rest, next.value)
  }

  /**
   * `time.Parse("2 Jan 2006 15:04:05 GMT", s)`: the chunks in layout order,
   * then nothing more may follow; a month or day the layout did not give
   * would be January or 1, and the day is checked against the length of its
   * month only once the whole value has been read.
   */
  function ParseGmt(s: string): (r: Result<DateTime, DateError>)
    ensures r.Success? ==> Valid(r.value)
  {
    var scanned :- Scan(0, s, Unset);
    var t := scanned.value;
    var month := if t.month == -1 then 1 else t.month;
    var day := if t.day == -1 then 1 else t.day;
    if scanned.rest != "" then Failure(ExtraText(scanned.rest))
    else if day < 1 || day > DaysIn(month, t.year) then Failure(OutOfRange(Day))
    else Success(t.(month := month, day := day))
  }

  // ---------------------------------------------------------------------------
  // Seconds since the epoch (`time.Time.Unix` of a UTC time).

  function YearLength(year: int): int {
    if IsLeap(year) then 366 else 365
  }

  /** Days from 1 January of year 0 to 1 January of `year`, in closed form. */
  function DaysBeforeYear(year: nat): int {
    365 * year + (year + 3) / 4 - (year + 99) / 100 + (year + 399) / 400
  }

  /** The same count taken year by year: the reference the closed form is checked against. */
  function DaysBeforeYearCounted(year: nat): nat {
    if year == 0 then 0 else DaysBeforeYearCounted(year - 1) + YearLength(year - 1)
  }

  const CumulativeDays: seq<int> := [0, 31, 59, 90, 120, 151, 181, 212, 243, 273, 304, 334]

  /** Days from 1 January to the first day of `month` in `year`, from the table of a common year. */
  function DaysBeforeMonth(month: int, year: int): int
    requires 1 <= month <= 12
  {
    CumulativeDays[month - 1] + if month > 2 && IsLeap(year) then 1 else 0
  }

  /** The same count taken month by month. */
  function DaysBeforeMonthCounted(month: int, year: int): int
    requires 1 <= month <= 12
  {
    if month == 1 then 0 else DaysBeforeMonthCounted(month - 1, year) + DaysIn(month - 1, year)
  }

  /** Whole days from 1 January 1970 to the day of `t` (negative before it). */
  function DaysSinceEpoch(t: DateTime): int
    requires Valid(t)
  {
    DaysBeforeYear(t.year) - DaysBeforeYear(1970) + DaysBeforeMonth(t.month, t.year) + t.day - 1
  }

  /** `t.Unix()`: every day has 86400 seconds. */
  function Unix(t: DateTime): int
    requires Valid(t)
  {
    DaysSinceEpoch(t) * 86400 + t.hour * 3600 + t.minute * 60 + t.second
  }

  /** A timestamp splits into the whole days since the epoch and the seconds into that day. */
  lemma UnixSplits(t: DateTime)
    requires Valid(t)
    ensures Unix(t) / 86400 == DaysSinceEpoch(t)
    ensures Unix(t) % 86400 == t.hour * 3600 + t.minute * 60 + t.second
  {
    DayDivMod(DaysSinceEpoch(t), t.hour * 3600 + t.minute * 60 + t.second);
  }

  lemma DayDivMod(q: int, r: int)
    requires 0 <= r < 86400
    ensures (q * 86400 + r) / 86400 == q && (q * 86400 + r) % 86400 == r
  {
  }

  /** The epoch, midnight UTC on 1 January 1970, is timestamp 0. */
  lemma UnixEpoch()
    ensures Unix(DateTime(1970, 1, 1, 0, 0, 0)) == 0
  {
  }

  lemma DivStep4(n: nat)
    ensures (n + 4) / 4 == (n + 3) / 4 + (if n % 4 == 0 then 1 else 0)
  {
  }

  lemma DivStep100(n: nat)
    ensures (n + 100) / 100 == (n + 99) / 100 + (if n % 100 == 0 then 1 else 0)
  {
  }

  lemma DivStep400(n: nat)
    ensures (n + 400) / 400 == (n + 399) / 400 + (if n % 400 == 0 then 1 else 0)
  {
  }

  lemma Divides(n: nat)
    ensures n % 100 == 0 ==> n % 4 == 0
    ensures n % 400 == 0 ==> n % 100 == 0
  {
    if n % 100 == 0 {
      assert n == 4 * (25 * (n / 100));
    }
    if n % 400 == 0 {
      assert n == 100 * (4 * (n / 400));
    }
  }

  /** Going from one New Year to the next adds the length of the year in between. */
  lemma YearStep(year: nat)
    ensures DaysBeforeYear(year + 1) == DaysBeforeYear(year) + YearLength(year)
  {
    DivStep4(year);
    DivStep100(year);
    DivStep400(year);
    Divides(year);
    var a, b, c := (year + 3) / 4, (year + 99) / 100, (year + 399) / 400;
    var a', b', c' := (year + 4) / 4, (year + 100) / 100, (year + 400) / 400;
    assert DaysBeforeYear(year) == 365 * year + a - b + c;
    assert DaysBeforeYear(year + 1) == 365 * year + 365 + a' - b' + c';
    assert a' - b' + c' - (a - b + c) == YearLength(year) - 365;
  }

  /** The closed form counts exactly the days of the years before `year`. */
  lemma {:induction false} DaysBeforeYearCounts(year: nat)
    ensures DaysBeforeYear(year) == DaysBeforeYearCounted(year)
  {
    if year > 0 {
      DaysBeforeYearCounts(year - 1);
      YearStep(year - 1);
    }
  }

  /** The table counts exactly the days of the months before `month`. */
  lemma {:induction false} DaysBeforeMonthCounts(month: int, year: int)
    requires 1 <= month <= 12
    ensures DaysBeforeMonth(month, year) == DaysBeforeMonthCounted(month, year)
  {
    if month > 1 {
      DaysBeforeMonthCounts(month - 1, year);
    }
  }

  lemma DaysBeforeYearGrows(y1: nat, y2: nat)
    requires y1 < y2
    ensures DaysBeforeYear(y1) + YearLength(y1) <= DaysBeforeYear(y2)
    decreases y2 - y1
  {
    YearStep(y1);
    if y1 + 1 < y2 {
      DaysBeforeYearGrows(y1 + 1, y2);
    }
  }

  lemma DaysBeforeMonthGrows(m1: int, m2: int, year: int)
    requires 1 <= m1 < m2 <= 12
    ensures DaysBeforeMonth(m1, year) + DaysIn(m1, year) <= DaysBeforeMonth(m2, year)
  {
    DaysBeforeMonthCounts(m2, year);
    DaysBeforeMonthCounts(m1, year);
    CountedGrows(m1, m2, year);
  }

  lemma CountedGrows(m1: int, m2: int, year: int)
    requires 1 <= m1 < m2 <= 12
    ensures DaysBeforeMonthCounted(m1, year) + DaysIn(m1, year) <= DaysBeforeMonthCounted(m2, year)
    decreases m2
  {
    if m1 < m2 - 1 {
      CountedGrows(m1, m2 - 1, year);
    }
  }

  /** `a` comes strictly before `b` in calendar order. */
  predicate Earlier(a: DateTime, b: DateTime) {
    || a.year < b.year
    || (a.year == b.year && a.month < b.month)
    || (a.year == b.year && a.month == b.month && a.day < b.day)
    || (a.year == b.year && a.month == b.month && a.day == b.day && a.hour < b.hour)
    || (a.year == b.year && a.month == b.month && a.day == b.day && a.hour == b.hour && a.minute < b.minute)
    || (a.year == b.year && a.month == b.month && a.day == b.day && a.hour == b.hour && a.minute == b.minute
        && a.second < b.second)
  }

  lemma DaysSinceEpochGrows(a: DateTime, b: DateTime)
    requires Valid(a) && Valid(b)
    requires a.year < b.year || (a.year == b.year && a.month < b.month)
          || (a.year == b.year && a.month == b.month && a.day < b.day)
    ensures DaysSinceEpoch(a) < DaysSinceEpoch(b)
  {
    if a.year < b.year {
      DaysBeforeMonthGrows12(a.month, a.year);
      DaysBeforeYearGrows(a.year, b.year);
    } else if a.month < b.month {
      DaysBeforeMonthGrows(a.month, b.month, a.year);
    }
  }

  lemma DaysBeforeMonthGrows12(month: int, year: int)
    requires 1 <= month <= 12
    ensures DaysBeforeMonth(month, year) + DaysIn(month, year) <= YearLength(year)
  {
  }

  /**
   * Later times have larger timestamps: `Unix` is strictly increasing in
   * calendar order, so no two valid times share a timestamp.
   */
  lemma UnixIncreasing(a: DateTime, b: DateTime)
    requires Valid(a) && Valid(b) && Earlier(a, b)
    ensures Unix(a) < Unix(b)
  {
    if a.year < b.year || (a.year == b.year && a.month < b.month)
      || (a.year == b.year && a.month == b.month && a.day < b.day)
    {
      DaysSinceEpochGrows(a, b);
      var da, db := DaysSinceEpoch(a), DaysSinceEpoch(b);
      assert Unix(a) < da * 86400 + 86400;
      assert da * 86400 + 86400 <= db * 86400;
    }
  }
}
