/**
 * Which values `ParseGmt` accepts, stated without its parse loop. A value
 * reads as a time exactly when it is that time spelled in the layout
 * "2 Jan 2006 15:04:05 GMT" with the freedoms Go's parser allows: one or two
 * digits for the day and the hour, the month abbreviation in any ASCII case,
 * and any run of spaces where the layout has a space. The canonical spelling
 * `FormatGmt` is one such value.
 */
module GmtSpelling {
  import opened Wrappers
  import opened Decimal
  import opened GmtTime

  // ---------------------------------------------------------------------------
  // The spellings of a time.

  /** `n` spaces. */
  function Spaces(n: nat): (s: string)
    ensures |s| == n
  {
    if n == 0 then "" else " " + Spaces(n - 1)
  }

  /**
   * A value cut at the layout's chunks: the text of each element and, for each
   * space of the layout, how many spaces stand for it.
   */
  datatype Pieces = Pieces(
    day: string, gap1: nat, month: string, gap2: nat, year: string, gap3: nat,
    hour: string, minute: string, second: string, gap4: nat)

  /** "2 Jan 2006 " spelled by the pieces, then `rest`. */
  function DatePart(p: Pieces, rest: string): string {
    p.day + (Spaces(p.gap1) + (p.month + (Spaces(p.gap2) + (p.year + (Spaces(p.gap3) + rest)))))
  }

  /** "15:04:05" spelled by the pieces, then `rest`. */
  function ClockPart(p: Pieces, rest: string): string {
    p.hour + (":" + (p.minute + (":" + (p.second + rest))))
  }

  /** The whole value the pieces make up: the date, the clock, spaces and the zone name "GMT". */
  function Assemble(p: Pieces): string {
    DatePart(p, ClockPart(p, Spaces(p.gap4) + "GMT"))
  }

  /** `text` is a run of decimal digits whose value is `n`. */
  predicate DigitsOf(text: string, n: int) {
    DigitsValue(text).Some? && DigitsValue(text).value == n
  }

  /**
   * The date pieces spell the date of `t`: a day of one or two digits, the
   * month's abbreviation in any mix of ASCII cases, a year of four digits, and
   * at least one space after each.
   */
  predicate DateDenotes(p: Pieces, t: DateTime) {
    && (|p.day| == 1 || |p.day| == 2) && DigitsOf(p.day, t.day)
    && MonthSpelling(p.month, t.month)
    && |p.year| == 4 && DigitsOf(p.year, t.year)
    && 0 < p.gap1 && 0 < p.gap2 && 0 < p.gap3
  }

  /**
   * The clock pieces spell the time of day of `t`: an hour of one or two
   * digits, minute and second of exactly two, and at least one space before
   * the zone name.
   */
  predicate ClockDenotes(p: Pieces, t: DateTime) {
    && (|p.hour| == 1 || |p.hour| == 2) && DigitsOf(p.hour, t.hour)
    && |p.minute| == 2 && DigitsOf(p.minute, t.minute)
    && |p.second| == 2 && DigitsOf(p.second, t.second)
    && 0 < p.gap4
  }

  predicate Denotes(p: Pieces, t: DateTime) {
    DateDenotes(p, t) && ClockDenotes(p, t)
  }

  /** `text` is the abbreviation of month `m` (1 for January) in any mix of ASCII cases. */
  predicate MonthSpelling(text: string, m: int) {
    1 <= m <= 12 && SameLetters(text, ShortMonthNames[m - 1])
  }

  /** `s` is `t` spelled in the layout, in some choice of pieces. */
  ghost predicate Spells(s: string, t: DateTime) {
    exists p: Pieces :: Assemble(p) == s && Denotes(p, t)
  }

  // ---------------------------------------------------------------------------
  // What the parser accepts is exactly the spellings of valid times.

  /**
   * A value reads as `t` if and only if it spells `t` in the layout and `t` is
   * a valid date and time; every other value is a parse error.
   */
  lemma ParseGmtSpells(s: string, t: DateTime)
    ensures ParseGmt(s) == Success(t) <==> Spells(s, t) && Valid(t)
  {
    if ParseGmt(s) == Success(t) {
      var p := ParsedPieces(s, t);
      assert Assemble(p) == s && Denotes(p, t);
    }
    if Spells(s, t) && Valid(t) {
      var p :| Assemble(p) == s && Denotes(p, t);
      SpelledParses(p, t);
    }
  }

  /** Every spelling of a valid time reads as that time. */
  lemma SpelledParses(p: Pieces, t: DateTime)
    requires Denotes(p, t) && Valid(t)
    ensures ParseGmt(Assemble(p)) == Success(t)
  {
    ScanSpelled(p, t, "");
    assert "GMT" + "" == "GMT";
  }

  /** A value that reads is cut into pieces that spell what it reads as. */
  lemma ParsedPieces(s: string, t: DateTime) returns (p: Pieces)
    requires ParseGmt(s) == Success(t)
    ensures Assemble(p) == s && Denotes(p, t)
  {
    var date, rest, u := DateBack(s);
    var clock, v := ClockBack(rest, u);
    p := date.(hour := clock.hour, minute := clock.minute, second := clock.second, gap4 := clock.gap4);
    assert ClockPart(p, Spaces(p.gap4) + "GMT") == rest;
    assert t == v;
  }

  // ---------------------------------------------------------------------------
  // Reading a spelling, chunk by chunk.

  /** The parse loop over a spelling of `t` reads `t` and leaves what follows "GMT". */
  lemma ScanSpelled(p: Pieces, t: DateTime, extra: string)
    requires Denotes(p, t) && Spellable(t)
    ensures Scan(0, DatePart(p, ClockPart(p, Spaces(p.gap4) + ("GMT" + extra))), Unset) == Success(Scanned(t, extra))
  {
    var zone := Spaces(p.gap4) + ("GMT" + extra);
    var u := Unset.(day := t.day, month := t.month, year := t.year);
    DigitsValueDigits(p.hour);
    ScanDatePieces(p, t, ClockPart(p, zone));
    ScanClockPieces(p, t, u, zone);
    ZoneChunk(p.gap4, extra, u.(hour := t.hour, minute := t.minute, second := t.second));
  }

  /** The chunks "2 Jan 2006 " read the date. */
  lemma ScanDatePieces(p: Pieces, t: DateTime, rest: string)
    requires DateDenotes(p, t) && Spellable(t) && 0 < |rest| && rest[0] != ' '
    ensures Scan(0, DatePart(p, rest), Unset) == Scan(6, rest, Unset.(day := t.day, month := t.month, year := t.year))
  {
    YearPieceStart(p, t, rest);
    ScanDayMonth(p, t, rest);
    ScanYearPiece(p, t, rest);
  }

  /** The chunks "2 Jan " read the day and the month. */
  lemma ScanDayMonth(p: Pieces, t: DateTime, rest: string)
    requires DateDenotes(p, t) && Spellable(t)
    requires 0 < |p.year + (Spaces(p.gap3) + rest)| && (p.year + (Spaces(p.gap3) + rest))[0] != ' '
    ensures Scan(0, DatePart(p, rest), Unset) == Scan(4, p.year + (Spaces(p.gap3) + rest), Unset.(day := t.day, month := t.month))
  {
    var afterMonth := p.year + (Spaces(p.gap3) + rest);
    MonthPieceStart(p, t, afterMonth);
    ScanDayPiece(p, t, afterMonth);
    ScanMonthPiece(p, t, afterMonth);
  }

  lemma YearPieceStart(p: Pieces, t: DateTime, rest: string)
    requires DateDenotes(p, t)
    ensures 0 < |p.year + (Spaces(p.gap3) + rest)| && (p.year + (Spaces(p.gap3) + rest))[0] != ' '
  {
    DigitStart(p.year, Spaces(p.gap3) + rest);
  }

  lemma MonthPieceStart(p: Pieces, t: DateTime, rest: string)
    requires DateDenotes(p, t)
    ensures 0 < |p.month + (Spaces(p.gap2) + rest)| && (p.month + (Spaces(p.gap2) + rest))[0] != ' '
  {
    MonthStart(p.month, t.month, Spaces(p.gap2) + rest);
  }

  lemma ScanDayPiece(p: Pieces, t: DateTime, rest: string)
    requires DateDenotes(p, t) && Spellable(t)
    requires 0 < |p.month + (Spaces(p.gap2) + rest)| && (p.month + (Spaces(p.gap2) + rest))[0] != ' '
    ensures Scan(0, p.day + (Spaces(p.gap1) + (p.month + (Spaces(p.gap2) + rest))), Unset)
         == Scan(2, p.month + (Spaces(p.gap2) + rest), Unset.(day := t.day))
  {
    DayChunk(p.day, p.gap1, p.month + (Spaces(p.gap2) + rest), Unset);
  }

  lemma ScanMonthPiece(p: Pieces, t: DateTime, rest: string)
    requires DateDenotes(p, t) && Spellable(t) && 0 < |rest| && rest[0] != ' '
    ensures Scan(2, p.month + (Spaces(p.gap2) + rest), Unset.(day := t.day)) == Scan(4, rest, Unset.(day := t.day, month := t.month))
  {
    MonthChunk(p.month, t.month, p.gap2, rest, Unset.(day := t.day));
  }

  lemma ScanYearPiece(p: Pieces, t: DateTime, rest: string)
    requires DateDenotes(p, t) && Spellable(t) && 0 < |rest| && rest[0] != ' '
    ensures Scan(4, p.year + (Spaces(p.gap3) + rest), Unset.(day := t.day, month := t.month))
         == Scan(6, rest, Unset.(day := t.day, month := t.month, year := t.year))
  {
    YearChunk(p.year, p.gap3, rest, Unset.(day := t.day, month := t.month));
  }

  /** The chunks "15:04:05" read the time of day. */
  lemma ScanClockPieces(p: Pieces, t: DateTime, u: DateTime, rest: string)
    requires ClockDenotes(p, t) && Spellable(t) && InRange(u) && 0 < |rest| && !IsDigit(rest[0])
    ensures Scan(6, ClockPart(p, rest), u) == Scan(11, rest, u.(hour := t.hour, minute := t.minute, second := t.second))
  {
    var u1 := u.(hour := t.hour);
    var u2 := u1.(minute := t.minute);
    HourChunk(p.hour, p.minute + (":" + (p.second + rest)), u);
    MinuteChunk(p.minute, p.second + rest, u1);
    SecondChunk(p.second, rest, u2);
  }

  /** The day, then the spaces after it. */
  lemma DayChunk(text: string, gap: nat, rest: string, u: DateTime)
    requires (|text| == 1 || |text| == 2) && DigitsValue(text).Some? && 0 < gap
    requires 0 < |rest| && rest[0] != ' ' && InRange(u)
    ensures InRange(u.(day := DigitsValue(text).value))
    ensures Scan(0, text + (Spaces(gap) + rest), u) == Scan(2, rest, u.(day := DigitsValue(text).value))
  {
    var v := u.(day := DigitsValue(text).value);
    LayoutChunks();
    NumberRead(text, false, Day, Spaces(gap) + rest);
    ElementStep(0, text + (Spaces(gap) + rest), u, Scanned(v, Spaces(gap) + rest));
    SpacesRead(gap, rest);
    SeparatorStep(1, Spaces(gap) + rest, v, rest);
  }

  /** The month, then the spaces after it. */
  lemma MonthChunk(text: string, m: int, gap: nat, rest: string, u: DateTime)
    requires MonthSpelling(text, m) && 0 < gap
    requires 0 < |rest| && rest[0] != ' ' && InRange(u)
    ensures Scan(2, text + (Spaces(gap) + rest), u) == Scan(4, rest, u.(month := m))
  {
    LayoutChunks();
    MonthRead(text, m, Spaces(gap) + rest);
    ElementStep(2, text + (Spaces(gap) + rest), u, Scanned(u.(month := m), Spaces(gap) + rest));
    SpacesRead(gap, rest);
    SeparatorStep(3, Spaces(gap) + rest, u.(month := m), rest);
  }

  /** The year, then the spaces after it. */
  lemma YearChunk(text: string, gap: nat, rest: string, u: DateTime)
    requires |text| == 4 && DigitsValue(text).Some? && 0 < gap
    requires 0 < |rest| && rest[0] != ' ' && InRange(u)
    ensures InRange(u.(year := DigitsValue(text).value))
    ensures Scan(4, text + (Spaces(gap) + rest), u) == Scan(6, rest, u.(year := DigitsValue(text).value))
  {
    var v := u.(year := DigitsValue(text).value);
    LayoutChunks();
    YearRead(text, Spaces(gap) + rest);
    ElementStep(4, text + (Spaces(gap) + rest), u, Scanned(v, Spaces(gap) + rest));
    SpacesRead(gap, rest);
    SeparatorStep(5, Spaces(gap) + rest, v, rest);
  }

  /** The hour, then its colon. */
  lemma HourChunk(text: string, rest: string, u: DateTime)
    requires (|text| == 1 || |text| == 2) && DigitsValue(text).Some? && DigitsValue(text).value < 24 && InRange(u)
    ensures Scan(6, text + (":" + rest), u) == Scan(8, rest, u.(hour := DigitsValue(text).value))
  {
    var v := u.(hour := DigitsValue(text).value);
    LayoutChunks();
    NumberRead(text, false, Hour, ":" + rest);
    ElementStep(6, text + (":" + rest), u, Scanned(v, ":" + rest));
    ColonRead(rest);
    SeparatorStep(7, ":" + rest, v, rest);
  }

  /** The minute, then its colon. */
  lemma MinuteChunk(text: string, rest: string, u: DateTime)
    requires |text| == 2 && DigitsValue(text).Some? && DigitsValue(text).value < 60 && InRange(u)
    ensures Scan(8, text + (":" + rest), u) == Scan(10, rest, u.(minute := DigitsValue(text).value))
  {
    var v := u.(minute := DigitsValue(text).value);
    LayoutChunks();
    NumberRead(text, true, ZeroMinute, ":" + rest);
    ElementStep(8, text + (":" + rest), u, Scanned(v, ":" + rest));
    ColonRead(rest);
    SeparatorStep(9, ":" + rest, v, rest);
  }

  /** The second. */
  lemma SecondChunk(text: string, rest: string, u: DateTime)
    requires |text| == 2 && DigitsValue(text).Some? && DigitsValue(text).value < 60 && InRange(u)
    requires 0 < |rest| && !IsDigit(rest[0])
    ensures Scan(10, text + rest, u) == Scan(11, rest, u.(second := DigitsValue(text).value))
  {
    LayoutChunks();
    NumberRead(text, true, ZeroSecond, rest);
    ElementStep(10, text + rest, u, Scanned(u.(second := DigitsValue(text).value), rest));
  }

  /** The last chunk, " GMT", matched by spaces and "GMT"; the loop ends and leaves what follows. */
  lemma ZoneChunk(gap: nat, extra: string, u: DateTime)
    requires 0 < gap && InRange(u)
    ensures Scan(11, Spaces(gap) + ("GMT" + extra), u) == Success(Scanned(u, extra))
  {
    LayoutChunks();
    ZoneRead(gap, extra);
    SeparatorStep(11, Spaces(gap) + ("GMT" + extra), u, extra);
  }

  // ---------------------------------------------------------------------------
  // Cutting a value that reads back into its pieces, chunk by chunk.

  /** The date chunks of a value the loop reads: pieces for "2 Jan 2006 " and the fields they set. */
  lemma DateBack(s: string) returns (p: Pieces, rest: string, u: DateTime)
    requires Scan(0, s, Unset).Success?
    ensures DateDenotes(p, u) && u == Unset.(day := u.day, month := u.month, year := u.year) && InRange(u)
    ensures s == DatePart(p, rest)
    ensures Scan(0, s, Unset) == Scan(6, rest, u)
  {
    var day, gap1, r1 := DayChunkBack(s, Unset);
    var u1 := Unset.(day := DigitsValue(day).value);
    var month, m, gap2, r2 := MonthChunkBack(r1, u1);
    var u2 := u1.(month := m);
    var year, gap3, r3 := YearChunkBack(r2, u2);
    p := Pieces(day, gap1, month, gap2, year, gap3, "", "", "", 0);
    rest := r3;
    u := u2.(year := DigitsValue(year).value);
  }

  /** The clock chunks and the zone of a value the loop reads to its end. */
  lemma ClockBack(s: string, u: DateTime) returns (p: Pieces, v: DateTime)
    requires InRange(u) && Scan(6, s, u).Success? && Scan(6, s, u).value.rest == ""
    ensures ClockDenotes(p, v) && v == u.(hour := v.hour, minute := v.minute, second := v.second)
    ensures s == ClockPart(p, Spaces(p.gap4) + "GMT")
    ensures Scan(6, s, u) == Success(Scanned(v, ""))
  {
    var hour, r1 := HourChunkBack(s, u);
    var u1 := u.(hour := DigitsValue(hour).value);
    var minute, r2 := MinuteChunkBack(r1, u1);
    var u2 := u1.(minute := DigitsValue(minute).value);
    var second, r3 := SecondChunkBack(r2, u2);
    v := u2.(second := DigitsValue(second).value);
    var gap := ZoneChunkBack(r3, v);
    assert "GMT" + "" == "GMT";
    p := Pieces("", 0, "", 0, "", 0, hour, minute, second, gap);
  }

  lemma DayChunkBack(s: string, u: DateTime) returns (text: string, gap: nat, rest: string)
    requires InRange(u) && Scan(0, s, u).Success?
    ensures (|text| == 1 || |text| == 2) && DigitsValue(text).Some? && 0 < gap
    ensures s == text + (Spaces(gap) + rest)
    ensures InRange(u.(day := DigitsValue(text).value))
    ensures Scan(0, s, u) == Scan(2, rest, u.(day := DigitsValue(text).value))
  {
    LayoutChunks();
    var next := ElementBack(0, s, u);
    text := NumberBack(s, false, Day);
    rest := SeparatorBack(1, next.rest, next.value);
    EmptyUnreadable(2, next.value);
    gap := SpacesBack(next.rest, rest);
  }

  lemma MonthChunkBack(s: string, u: DateTime) returns (text: string, m: int, gap: nat, rest: string)
    requires InRange(u) && Scan(2, s, u).Success?
    ensures MonthSpelling(text, m) && 0 < gap
    ensures s == text + (Spaces(gap) + rest)
    ensures Scan(2, s, u) == Scan(4, rest, u.(month := m))
  {
    LayoutChunks();
    var next := ElementBack(2, s, u);
    text, m := MonthBack(s, 0);
    rest := SeparatorBack(3, next.rest, next.value);
    EmptyUnreadable(4, next.value);
    gap := SpacesBack(next.rest, rest);
  }

  lemma YearChunkBack(s: string, u: DateTime) returns (text: string, gap: nat, rest: string)
    requires InRange(u) && Scan(4, s, u).Success?
    ensures |text| == 4 && DigitsValue(text).Some? && 0 < gap
    ensures s == text + (Spaces(gap) + rest)
    ensures InRange(u.(year := DigitsValue(text).value))
    ensures Scan(4, s, u) == Scan(6, rest, u.(year := DigitsValue(text).value))
  {
    LayoutChunks();
    var next := ElementBack(4, s, u);
    text := YearBack(s);
    rest := SeparatorBack(5, next.rest, next.value);
    EmptyUnreadable(6, next.value);
    gap := SpacesBack(next.rest, rest);
  }

  lemma HourChunkBack(s: string, u: DateTime) returns (text: string, rest: string)
    requires InRange(u) && Scan(6, s, u).Success?
    ensures (|text| == 1 || |text| == 2) && DigitsValue(text).Some? && DigitsValue(text).value < 24
    ensures s == text + (":" + rest)
    ensures Scan(6, s, u) == Scan(8, rest, u.(hour := DigitsValue(text).value))
  {
    LayoutChunks();
    var next := ElementBack(6, s, u);
    text := NumberBack(s, false, Hour);
    rest := SeparatorBack(7, next.rest, next.value);
    ColonBack(next.rest, rest);
  }

  lemma MinuteChunkBack(s: string, u: DateTime) returns (text: string, rest: string)
    requires InRange(u) && Scan(8, s, u).Success?
    ensures |text| == 2 && DigitsValue(text).Some? && DigitsValue(text).value < 60
    ensures s == text + (":" + rest)
    ensures Scan(8, s, u) == Scan(10, rest, u.(minute := DigitsValue(text).value))
  {
    LayoutChunks();
    var next := ElementBack(8, s, u);
    text := NumberBack(s, true, ZeroMinute);
    rest := SeparatorBack(9, next.rest, next.value);
    ColonBack(next.rest, rest);
  }

  lemma SecondChunkBack(s: string, u: DateTime) returns (text: string, rest: string)
    requires InRange(u) && Scan(10, s, u).Success?
    ensures |text| == 2 && DigitsValue(text).Some? && DigitsValue(text).value < 60
    ensures s == text + rest
    ensures Scan(10, s, u) == Scan(11, rest, u.(second := DigitsValue(text).value))
  {
    LayoutChunks();
    var next := ElementBack(10, s, u);
    text := NumberBack(s, true, ZeroSecond);
    rest := next.rest;
  }

  lemma ZoneChunkBack(s: string, u: DateTime) returns (gap: nat)
    requires InRange(u) && Scan(11, s, u).Success?
    ensures 0 < gap && s == Spaces(gap) + ("GMT" + Scan(11, s, u).value.rest)
    ensures Scan(11, s, u).value.value == u
  {
    LayoutChunks();
    var rest := SeparatorBack(11, s, u);
    gap := ZoneBack(s, rest);
  }

  /** One turn of the parse loop, read backwards: element chunk `i` read the front of a value the loop reads on. */
  lemma ElementBack(i: nat, value: string, u: DateTime) returns (next: Scanned<DateTime>)
    requires i < |GmtLayout| && !GmtLayout[i].Separator? && InRange(u) && Scan(i, value, u).Success?
    ensures ReadElement(GmtLayout[i], value, u) == Success(next) && InRange(next.value)
    ensures Scan(i, value, u) == Scan(i + 1, next.rest, next.value)
  {
    assert Scan(i, value, u) == Turn(i, value, u);
    assert Turn(i, value, u) == ElementTurn(i, value, u);
    next := ReadElement(GmtLayout[i], value, u).value;
  }

  /** One turn of the parse loop, read backwards: separator chunk `i` matched the front of a value the loop reads on. */
  lemma SeparatorBack(i: nat, value: string, u: DateTime) returns (rest: string)
    requires i < |GmtLayout| && GmtLayout[i].Separator? && InRange(u) && Scan(i, value, u).Success?
    ensures Literal(value, GmtLayout[i].literal) == Success(rest)
    ensures Scan(i, value, u) == Scan(i + 1, rest, u)
  {
    assert Scan(i, value, u) == Turn(i, value, u);
    assert Turn(i, value, u) == SeparatorTurn(i, GmtLayout[i].literal, value, u);
    rest := Literal(value, GmtLayout[i].literal).value;
  }

  /** Month, year and hour cannot be read from nothing. */
  lemma EmptyUnreadable(i: nat, u: DateTime)
    requires (i == 2 || i == 4 || i == 6) && InRange(u)
    ensures Scan(i, "", u).Failure?
  {
    LayoutChunks();
    NoMonthInShortText("", 0);
    assert Scan(i, "", u) == Turn(i, "", u);
    assert Turn(i, "", u) == ElementTurn(i, "", u);
  }

  // ---------------------------------------------------------------------------
  // The elements and separators, each read forwards and backwards.

  lemma {:induction false} DigitsValueDigits(s: string)
    requires DigitsValue(s).Some?
    ensures 0 < |s| && forall i :: 0 <= i < |s| ==> IsDigit(s[i])
  {
    if |s| > 1 {
      DigitsValueDigits(s[..|s| - 1]);
      assert forall i :: 0 <= i < |s| - 1 ==> s[..|s| - 1][i] == s[i];
    }
  }

  /** A number followed by anything starts with a digit. */
  lemma DigitStart(text: string, rest: string)
    requires DigitsValue(text).Some?
    ensures 0 < |text + rest| && IsDigit((text + rest)[0])
  {
    DigitsValueDigits(text);
  }

  lemma NumberRead(text: string, fixed: bool, element: Chunk, rest: string)
    requires (|text| == 1 || |text| == 2) && (fixed ==> |text| == 2) && DigitsValue(text).Some?
    requires 0 < |rest| && !IsDigit(rest[0])
    ensures GetNum(text + rest, fixed, element) == Success(Scanned(DigitsValue(text).value, rest))
  {
    DigitsValueDigits(text);
    var s := text + rest;
    if |text| == 1 {
      assert s[1] == rest[0];
      assert s[1..] == rest;
    } else {
      assert text[..1] == [text[0]];
      assert s[2..] == rest;
    }
  }

  lemma NumberBack(s: string, fixed: bool, element: Chunk) returns (text: string)
    requires GetNum(s, fixed, element).Success?
    ensures (|text| == 1 || |text| == 2) && (fixed ==> |text| == 2)
    ensures DigitsValue(text) == Some(GetNum(s, fixed, element).value.value)
    ensures s == text + GetNum(s, fixed, element).value.rest
  {
    if |s| == 1 || !IsDigit(s[1]) {
      text := s[..1];
      assert s == text + s[1..];
    } else {
      text := s[..2];
      assert text[..1] == [s[0]];
      assert s == text + s[2..];
    }
  }

  lemma YearRead(text: string, rest: string)
    requires |text| == 4 && DigitsValue(text).Some?
    ensures GetYear(text + rest) == Success(Scanned(DigitsValue(text).value, rest))
  {
    DigitsValueDigits(text);
    var s := text + rest;
    assert s[..4] == text;
    assert s[4..] == rest;
  }

  lemma YearBack(s: string) returns (text: string)
    requires GetYear(s).Success?
    ensures |text| == 4 && DigitsValue(text) == Some(GetYear(s).value.value)
    ensures s == text + GetYear(s).value.rest
  {
    text := s[..4];
    assert s == text + s[4..];
  }

  /** Go's match agrees with the month abbreviation letter by letter, ignoring case, so it agrees on lower case. */
  lemma SameLettersLower(x: string, name: string)
    requires |name| == 3 && SameLetters(x, name)
    ensures Lower(x[0]) == Lower(name[0]) && Lower(x[1]) == Lower(name[1]) && Lower(x[2]) == Lower(name[2])
  {
    assert SameLetter(x[0], name[0]) && SameLetter(x[1], name[1]) && SameLetter(x[2], name[2]);
  }

  /** No two month abbreviations agree in lower case. */
  lemma MonthNamesDiffer(a: nat, b: nat)
    requires a < 12 && b < 12
    ensures a != b ==>
      var x, y := ShortMonthNames[a], ShortMonthNames[b];
      Lower(x[0]) != Lower(y[0]) || Lower(x[1]) != Lower(y[1]) || Lower(x[2]) != Lower(y[2])
  {
  }

  /** A text matches at most one month abbreviation, whatever its case. */
  lemma MonthSpellingUnique(x: string, a: nat, b: nat)
    requires a < 12 && b < 12
    requires SameLetters(x, ShortMonthNames[a]) && SameLetters(x, ShortMonthNames[b])
    ensures a == b
  {
    SameLettersLower(x, ShortMonthNames[a]);
    SameLettersLower(x, ShortMonthNames[b]);
    MonthNamesDiffer(a, b);
  }

  /** A month spelling starts with a letter. */
  lemma MonthStart(text: string, m: int, rest: string)
    requires MonthSpelling(text, m)
    ensures 0 < |text + rest| && (text + rest)[0] != ' '
  {
    var name := ShortMonthNames[m - 1];
    assert 'A' <= name[0] <= 'Z';
    assert SameLetter(text[0], name[0]);
  }

  lemma {:induction false} LookupMonthFrom(s: string, i: nat, m: nat)
    requires i < m <= 12 && 3 <= |s| && SameLetters(s[..3], ShortMonthNames[m - 1])
    ensures LookupMonth(s, i) == Success(Scanned(m, s[3..]))
    decreases m - i
  {
    if i < m - 1 {
      if SameLetters(s[..3], ShortMonthNames[i]) {
        MonthSpellingUnique(s[..3], i, m - 1);
      }
      LookupMonthFrom(s, i + 1, m);
    }
  }

  lemma MonthRead(text: string, m: nat, rest: string)
    requires MonthSpelling(text, m)
    ensures LookupMonth(text + rest, 0) == Success(Scanned(m, rest))
  {
    var s := text + rest;
    assert s[..3] == text;
    assert s[3..] == rest;
    LookupMonthFrom(s, 0, m);
  }

  lemma {:induction false} MonthBack(s: string, i: nat) returns (text: string, m: int)
    requires i <= 12 && LookupMonth(s, i).Success?
    ensures m == LookupMonth(s, i).value.value && 1 <= m <= 12
    ensures SameLetters(text, ShortMonthNames[m - 1])
    ensures s == text + LookupMonth(s, i).value.rest
    decreases 12 - i
  {
    if 3 <= |s| && SameLetters(s[..3], ShortMonthNames[i]) {
      text, m := s[..3], i + 1;
      assert s == text + s[3..];
    } else {
      text, m := MonthBack(s, i + 1);
    }
  }

  lemma {:induction false} NoMonthInShortText(s: string, i: nat)
    requires |s| < 3 && i <= 12
    ensures LookupMonth(s, i).Failure?
    decreases 12 - i
  {
    if i < 12 {
      NoMonthInShortText(s, i + 1);
    }
  }

  lemma {:induction false} CutSpaces(n: nat, rest: string)
    requires |rest| == 0 || rest[0] != ' '
    ensures CutSpace(Spaces(n) + rest) == rest
  {
    if n > 0 {
      CutSpaces(n - 1, rest);
      assert (Spaces(n) + rest)[1..] == Spaces(n - 1) + rest;
    }
  }

  lemma {:induction false} CutSpaceSplit(s: string)
    ensures s == Spaces(|s| - |CutSpace(s)|) + CutSpace(s)
  {
    if 0 < |s| && s[0] == ' ' {
      CutSpaceSplit(s[1..]);
      var n := |s| - 1 - |CutSpace(s[1..])|;
      assert s == " " + s[1..];
      AppendAssociates(" ", Spaces(n), CutSpace(s));
    }
  }

  lemma AppendAssociates(a: string, b: string, c: string)
    ensures (a + b) + c == a + (b + c)
  {
  }

  /** A space of the layout matches one or more spaces. */
  lemma SpacesRead(n: nat, rest: string)
    requires 0 < n && 0 < |rest| && rest[0] != ' '
    ensures Literal(Spaces(n) + rest, " ") == Success(rest)
  {
    CutSpaces(n, rest);
    assert CutSpace(" ") == CutSpace("") == "";
  }

  /** ... and only spaces, at least one of them, when something follows. */
  lemma SpacesBack(s: string, rest: string) returns (n: nat)
    requires Literal(s, " ") == Success(rest) && rest != ""
    ensures 0 < n && s == Spaces(n) + rest
  {
    assert CutSpace(" ") == CutSpace("") == "";
    CutSpaceSplit(s);
    n := |s| - |CutSpace(s)|;
  }

  lemma ColonRead(rest: string)
    ensures Literal(":" + rest, ":") == Success(rest)
  {
    assert (":" + rest)[1..] == rest;
  }

  lemma ColonBack(s: string, rest: string)
    requires Literal(s, ":") == Success(rest)
    ensures s == ":" + rest
  {
    assert ":"[1..] == "";
    assert s == [s[0]] + s[1..];
  }

  lemma ZoneNameRead(rest: string)
    ensures Skip("GMT" + rest, "GMT") == Some(rest)
  {
    var s := "GMT" + rest;
    assert "GMT"[1..] == "MT" && "MT"[1..] == "T" && "T"[1..] == "";
    assert s[1..] == "MT" + rest && s[1..][1..] == "T" + rest && s[1..][1..][1..] == rest;
  }

  lemma ZoneNameBack(s: string, rest: string)
    requires Skip(s, "GMT") == Some(rest)
    ensures s == "GMT" + rest
  {
    assert "GMT"[1..] == "MT" && "MT"[1..] == "T" && "T"[1..] == "";
    assert s == [s[0]] + ([s[1..][0]] + ([s[1..][1..][0]] + s[1..][1..][1..]));
  }

  /** The chunk " GMT" matches one or more spaces and "GMT". */
  lemma ZoneRead(n: nat, rest: string)
    requires 0 < n
    ensures Literal(Spaces(n) + ("GMT" + rest), " GMT") == Success(rest)
  {
    CutSpaces(n, "GMT" + rest);
    assert CutSpace(" GMT") == CutSpace("GMT") == "GMT";
    ZoneNameRead(rest);
  }

  lemma ZoneBack(s: string, rest: string) returns (n: nat)
    requires Literal(s, " GMT") == Success(rest)
    ensures 0 < n && s == Spaces(n) + ("GMT" + rest)
  {
    assert CutSpace(" GMT") == CutSpace("GMT") == "GMT";
    assert CutSpace("") == "";
    ZoneNameBack(CutSpace(s), rest);
    CutSpaceSplit(s);
    n := |s| - |CutSpace(s)|;
  }

  lemma LayoutChunks()
    ensures |GmtLayout| == 12
    ensures GmtLayout[0] == Day && GmtLayout[2] == MonthName && GmtLayout[4] == LongYear
    ensures GmtLayout[6] == Hour && GmtLayout[8] == ZeroMinute && GmtLayout[10] == ZeroSecond
    ensures GmtLayout[1] == GmtLayout[3] == GmtLayout[5] == Separator(" ")
    ensures GmtLayout[7] == GmtLayout[9] == Separator(":") && GmtLayout[11] == Separator(" GMT")
  {
  }

  /** One turn of the parse loop, when element chunk `i` reads `value` as `next`. */
  lemma ElementStep(i: nat, value: string, t: DateTime, next: Scanned<DateTime>)
    requires i < |GmtLayout| && !GmtLayout[i].Separator? && InRange(t)
    requires ReadElement(GmtLayout[i], value, t) == Success(next)
    ensures InRange(next.value)
    ensures Scan(i, value, t) == Scan(i + 1, next.rest, next.value)
  {
    assert Scan(i, value, t) == Turn(i, value, t);
    assert Turn(i, value, t) == ElementTurn(i, value, t);
  }

  /** One turn of the parse loop, when separator chunk `i` matches the front of `value` and leaves `rest`. */
  lemma SeparatorStep(i: nat, value: string, t: DateTime, rest: string)
    requires i < |GmtLayout| && GmtLayout[i].Separator? && InRange(t)
    requires Literal(value, GmtLayout[i].literal) == Success(rest)
    ensures Scan(i, value, t) == Scan(i + 1, rest, t)
  {
    assert Scan(i, value, t) == Turn(i, value, t);
    assert Turn(i, value, t) == SeparatorTurn(i, GmtLayout[i].literal, value, t);
  }

  // ---------------------------------------------------------------------------
  // The canonical spelling, as Go's `t.Format("2 Jan 2006 15:04:05 GMT")` writes it.

  function TwoDigits(n: nat): string
    requires n < 100
  {
    [DigitChar(n / 10), DigitChar(n % 10)]
  }

  function FourDigits(n: nat): string
    requires n < 10000
  {
    [DigitChar(n / 1000), DigitChar(n / 100 % 10), DigitChar(n / 10 % 10), DigitChar(n % 10)]
  }

  /** The elements "2 Jan 2006" of a time: the day unpadded, the year zero-padded. */
  function DateText(t: DateTime): string
    requires Spellable(t)
  {
    NatDigits(t.day) + (" " + (ShortMonthNames[t.month - 1] + (" " + FourDigits(t.year))))
  }

  /** The elements " 15:04:05" of a time, each number zero-padded to two digits. */
  function ClockText(t: DateTime): string
    requires Spellable(t)
  {
    " " + (TwoDigits(t.hour) + (":" + (TwoDigits(t.minute) + (":" + TwoDigits(t.second)))))
  }

  /** The fields spelled out in the layout. */
  function FormatGmt(t: DateTime): string
    requires Spellable(t)
  {
    DateText(t) + (ClockText(t) + " GMT")
  }

  /** The pieces of the canonical spelling: single spaces, the month as the layout writes it. */
  function Canonical(t: DateTime): (p: Pieces)
    requires Spellable(t)
    ensures Denotes(p, t)
  {
    CanonicalDenotes(t);
    Pieces(NatDigits(t.day), 1, ShortMonthNames[t.month - 1], 1, FourDigits(t.year), 1,
           TwoDigits(t.hour), TwoDigits(t.minute), TwoDigits(t.second), 1)
  }

  lemma CanonicalDenotes(t: DateTime)
    requires Spellable(t)
    ensures
      var p := Pieces(NatDigits(t.day), 1, ShortMonthNames[t.month - 1], 1, FourDigits(t.year), 1,
                      TwoDigits(t.hour), TwoDigits(t.minute), TwoDigits(t.second), 1);
      Denotes(p, t)
  {
    CanonicalDate(t);
    CanonicalClock(t);
  }

  lemma CanonicalDate(t: DateTime)
    requires Spellable(t)
    ensures 1 <= |NatDigits(t.day)| <= 2 && DigitsOf(NatDigits(t.day), t.day)
    ensures MonthSpelling(ShortMonthNames[t.month - 1], t.month)
    ensures |FourDigits(t.year)| == 4 && DigitsOf(FourDigits(t.year), t.year)
  {
    NatDigitsRoundTrip(t.day);
    ShortDay(t.day);
    FourDigitsValue(t.year);
  }

  lemma CanonicalClock(t: DateTime)
    requires Spellable(t)
    ensures DigitsOf(TwoDigits(t.hour), t.hour)
    ensures DigitsOf(TwoDigits(t.minute), t.minute)
    ensures DigitsOf(TwoDigits(t.second), t.second)
  {
    TwoDigitsValue(t.hour);
    TwoDigitsValue(t.minute);
    TwoDigitsValue(t.second);
  }

  lemma ShortDay(d: nat)
    requires d < 100
    ensures |NatDigits(d)| <= 2
  {
    if d >= 10 {
      assert NatDigits(d) == NatDigits(d / 10) + [DigitChar(d % 10)];
    }
  }

  lemma DigitsValueStep(t: string)
    requires 1 < |t| && IsDigit(t[|t| - 1]) && DigitsValue(t[..|t| - 1]).Some?
    ensures DigitsValue(t) == Some(DigitsValue(t[..|t| - 1]).value * 10 + DigitValue(t[|t| - 1]))
  {
  }

  lemma TwoDigitsValue(n: nat)
    requires n < 100
    ensures DigitsValue(TwoDigits(n)) == Some(n)
  {
    var d := TwoDigits(n);
    assert d[..1] == [DigitChar(n / 10)];
    DigitsValueStep(d);
  }

  lemma FourDigitsValue(n: nat)
    requires n < 10000
    ensures DigitsValue(FourDigits(n)) == Some(n)
  {
    var d1 := [DigitChar(n / 1000)];
    var d2 := d1 + [DigitChar(n / 100 % 10)];
    var d3 := d2 + [DigitChar(n / 10 % 10)];
    var d4 := d3 + [DigitChar(n % 10)];
    DecimalShifts(n);
    assert d2[..1] == d1;
    DigitsValueStep(d2);
    assert d3[..2] == d2;
    DigitsValueStep(d3);
    assert d4[..3] == d3;
    DigitsValueStep(d4);
    assert d4 == FourDigits(n);
  }

  lemma DecimalShifts(n: nat)
    ensures n / 1000 * 10 + n / 100 % 10 == n / 100
    ensures n / 100 * 10 + n / 10 % 10 == n / 10
    ensures n / 10 * 10 + n % 10 == n
  {
  }

  /** The canonical text is the canonical pieces put together. */
  lemma CanonicalText(t: DateTime, extra: string)
    requires Spellable(t)
    ensures FormatGmt(t) + extra == DatePart(Canonical(t), ClockPart(Canonical(t), Spaces(1) + ("GMT" + extra)))
  {
    var p := Canonical(t);
    var zone := " " + ("GMT" + extra);
    assert Spaces(1) == " ";
    AppendAssociates(DateText(t), ClockText(t) + " GMT", extra);
    AppendAssociates(ClockText(t), " GMT", extra);
    AppendAssociates(" ", "GMT", extra);
    ClockTextPieces(p.hour, p.minute, p.second, zone);
    DateTextPieces(p.day, p.month, p.year, ClockPart(p, zone));
  }

  lemma ClockTextPieces(h: string, m: string, s: string, zone: string)
    ensures (" " + (h + (":" + (m + (":" + s))))) + zone == " " + (h + (":" + (m + (":" + (s + zone)))))
  {
  }

  lemma DateTextPieces(d: string, m: string, y: string, rest: string)
    ensures (d + (" " + (m + (" " + y)))) + (" " + rest) == d + (" " + (m + (" " + (y + (" " + rest)))))
  {
  }

  /**
   * Every canonical spelling of a time reads back as that time, except a day
   * its month does not have, which is out of range.
   */
  lemma FormatThenParse(t: DateTime)
    requires Spellable(t)
    ensures ParseGmt(FormatGmt(t)) == if Valid(t) then Success(t) else Failure(OutOfRange(Day))
  {
    CanonicalText(t, "");
    assert FormatGmt(t) + "" == FormatGmt(t);
    ScanSpelled(Canonical(t), t, "");
  }

  /** Anything after the closing " GMT" makes the value not the layout. */
  lemma TrailingTextRejected(t: DateTime, extra: string)
    requires Spellable(t) && extra != ""
    ensures ParseGmt(FormatGmt(t) + extra) == Failure(ExtraText(extra))
  {
    CanonicalText(t, extra);
    ScanSpelled(Canonical(t), t, extra);
  }

  /** The layout names its zone: the same text ending in " UTC" instead of " GMT" is not the layout. */
  lemma OtherZoneRejected(t: DateTime)
    requires Spellable(t)
    ensures ParseGmt(DateText(t) + (ClockText(t) + " UTC")) == Failure(CannotParse(" UTC", Separator(" GMT")))
  {
    var p := Canonical(t);
    var u := Unset.(day := t.day, month := t.month, year := t.year);
    var v := u.(hour := t.hour, minute := t.minute, second := t.second);
    assert ClockText(t) + " UTC" == " " + ClockPart(p, " UTC");
    assert Spaces(1) == " ";
    assert DateText(t) + (" " + ClockPart(p, " UTC")) == DatePart(p, ClockPart(p, " UTC"));
    ScanDatePieces(p, t, ClockPart(p, " UTC"));
    ScanClockPieces(p, t, u, " UTC");
    UtcRejected(v);
  }

  lemma UtcRejected(v: DateTime)
    requires InRange(v)
    ensures Scan(11, " UTC", v) == Failure(CannotParse(" UTC", Separator(" GMT")))
  {
    LayoutChunks();
    assert CutSpace(" UTC") == "UTC" && CutSpace(" GMT") == "GMT";
    assert Skip(" UTC", " GMT") == None;
    assert Scan(11, " UTC", v) == Turn(11, " UTC", v);
    assert Turn(11, " UTC", v) == SeparatorTurn(11, " GMT", " UTC", v);
  }

  // ---------------------------------------------------------------------------
  // The values the collector's own tests pin down.

  lemma Spelled2020()
    ensures FormatGmt(DateTime(2020, 1, 20, 9, 0, 43)) == "20 Jan 2020 09:00:43 GMT"
  {
    assert DateText(DateTime(2020, 1, 20, 9, 0, 43)) == "20 Jan 2020";
    assert ClockText(DateTime(2020, 1, 20, 9, 0, 43)) == " 09:00:43";
  }

  lemma Spelled2019()
    ensures FormatGmt(DateTime(2019, 1, 20, 9, 0, 43)) == "20 Jan 2019 09:00:43 GMT"
  {
    assert DateText(DateTime(2019, 1, 20, 9, 0, 43)) == "20 Jan 2019";
    assert ClockText(DateTime(2019, 1, 20, 9, 0, 43)) == " 09:00:43";
  }

  lemma Unix2020()
    ensures Unix(DateTime(2020, 1, 20, 9, 0, 43)) == 1579510843
  {
  }

  lemma Unix2019()
    ensures Unix(DateTime(2019, 1, 20, 9, 0, 43)) == 1547974843
  {
  }

  /** The first `NotBefore` value of the renderer's test reads as the timestamp the test expects. */
  lemma NotBefore2020(s: string)
    requires s == "20 Jan 2020 09:00:43 GMT"
    ensures ParseGmt(s) == Success(DateTime(2020, 1, 20, 9, 0, 43))
    ensures Unix(DateTime(2020, 1, 20, 9, 0, 43)) == 1579510843
  {
    Spelled2020();
    FormatThenParse(DateTime(2020, 1, 20, 9, 0, 43));
    Unix2020();
  }

  /** The second `NotBefore` value of the renderer's test, one year earlier. */
  lemma NotBefore2019(s: string)
    requires s == "20 Jan 2019 09:00:43 GMT"
    ensures ParseGmt(s) == Success(DateTime(2019, 1, 20, 9, 0, 43))
    ensures Unix(DateTime(2019, 1, 20, 9, 0, 43)) == 1547974843
  {
    Spelled2019();
    FormatThenParse(DateTime(2019, 1, 20, 9, 0, 43));
    Unix2019();
  }

  lemma SpelledLeapDay()
    ensures FormatGmt(DateTime(2020, 2, 29, 0, 0, 0)) == "29 Feb 2020 00:00:00 GMT"
  {
    assert DateText(DateTime(2020, 2, 29, 0, 0, 0)) == "29 Feb 2020";
    assert ClockText(DateTime(2020, 2, 29, 0, 0, 0)) == " 00:00:00";
  }

  lemma SpelledCommonYearLeapDay()
    ensures FormatGmt(DateTime(2019, 2, 29, 0, 0, 0)) == "29 Feb 2019 00:00:00 GMT"
  {
    assert DateText(DateTime(2019, 2, 29, 0, 0, 0)) == "29 Feb 2019";
    assert ClockText(DateTime(2019, 2, 29, 0, 0, 0)) == " 00:00:00";
  }

  lemma LeapDayValidity()
    ensures IsLeap(2020) && !IsLeap(2019)
    ensures Valid(DateTime(2020, 2, 29, 0, 0, 0)) && !Valid(DateTime(2019, 2, 29, 0, 0, 0))
  {
  }

  /** 29 February exists in a leap year ... */
  lemma LeapDayAccepted(s: string)
    requires s == "29 Feb 2020 00:00:00 GMT"
    ensures ParseGmt(s) == Success(DateTime(2020, 2, 29, 0, 0, 0))
  {
    SpelledLeapDay();
    LeapDayValidity();
    FormatThenParse(DateTime(2020, 2, 29, 0, 0, 0));
  }

  /** ... and is out of range in a common year. */
  lemma LeapDayRejected(s: string)
    requires s == "29 Feb 2019 00:00:00 GMT"
    ensures ParseGmt(s) == Failure(OutOfRange(Day))
  {
    SpelledCommonYearLeapDay();
    LeapDayValidity();
    FormatThenParse(DateTime(2019, 2, 29, 0, 0, 0));
  }
}
