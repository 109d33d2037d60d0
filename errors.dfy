/**
 * The collector's error values and the fixed texts it prints: the message of
 * each error, the fatal line `check` hands to the logger and the informational
 * line `printInfo` writes.
 */
module Errors {
  import opened Wrappers
  import opened GmtTime

  const ProgramName := "collect-aws-metadata"

  /** The NotBefore layout, as error messages quote it. */
  const NotBeforeLayout := "2 Jan 2006 15:04:05 GMT"

  /** Every error the core can return. */
  datatype Error =
    | MissingTextfilesPath                                // errMissingTextfilesPath
    | ShowVersion                                         // errShowVersion, which is not a failure
    | HttpStatus(url: string, code: int, message: string) // *HTTPErrorStatusCode; `message` is the status line
    | Transport(detail: string)                           // a failed request, in the HTTP library's words
    | Decode(detail: string)                              // a body that is not a JSON array of events
    | BadNotBefore(value: string, cause: DateError)       // a NotBefore value that is not the layout
    | WriteFailed(detail: string)                         // the output refused a write

  /** `(*HTTPErrorStatusCode).Error()`: the URL in angle brackets, then the status message. */
  function HttpErrorText(url: string, message: string): (s: string)
    ensures |s| == |url| + |message| + 3
  {
    "<" + url + "> " + message
  }

  function Quote(s: string): string {
    "\"" + s + "\""
  }

  /** A chunk of the layout as Go's parse errors quote it: the layout's own text for it. */
  function ElementText(c: Chunk): string {
    match c
    case Day => "2"
    case MonthName => "Jan"
    case LongYear => "2006"
    case Hour => "15"
    case ZeroMinute => "04"
    case ZeroSecond => "05"
    case Separator(literal) => literal
  }

  /** The field a number chunk fills, as Go's range errors name it. */
  function FieldName(c: Chunk): string {
    match c
    case Day => "day"
    case MonthName => "month"
    case LongYear => "year"
    case Hour => "hour"
    case ZeroMinute => "minute"
    case ZeroSecond => "second"
    case Separator(_) => ""
  }

  /** The message of Go's `*time.ParseError` for a value read against the NotBefore layout. */
  function DateErrorText(value: string, cause: DateError): string {
    match cause
    case CannotParse(rest, element) =>
      "parsing time " + Quote(value)
        + (" as " + Quote(NotBeforeLayout) + ": cannot parse " + Quote(rest) + " as " + Quote(ElementText(element)))
    case OutOfRange(field) => "parsing time " + Quote(value) + (": " + FieldName(field) + " out of range")
    case ExtraText(rest) => "parsing time " + Quote(value) + (": extra text: " + Quote(rest))
  }

  /** A date error's message starts by quoting the whole value that did not read. */
  lemma DateErrorQuotesValue(value: string, cause: DateError)
    ensures var head := "parsing time " + Quote(value);
            var message := DateErrorText(value, cause);
            |head| <= |message| && message[..|head|] == head
  {
    var head := "parsing time " + Quote(value);
    var message := DateErrorText(value, cause);
    assert message == head + message[|head|..];
  }

  /** `e.Error()`. */
  function ErrorText(e: Error): string {
    match e
    case MissingTextfilesPath => "required: --textfiles-path"
    case ShowVersion => "(not an error) --version override"
    case HttpStatus(url, _, message) => HttpErrorText(url, message)
    case Transport(detail) => detail
    case Decode(detail) => detail
    case BadNotBefore(value, cause) => DateErrorText(value, cause)
    case WriteFailed(detail) => detail
  }

  const FatalPrefix := "** " + ProgramName + ": "

  /** What `check(e)` hands to the fatal logger: one line for an error, nothing for nil. */
  function CheckReport(e: Option<Error>): (lines: seq<string>)
    ensures e.None? <==> lines == []
    ensures e.Some? ==> |lines| == 1 && StripPrefix(FatalPrefix, lines[0]) == Some(ErrorText(e.value))
  {
    match e
    case None => []
    case Some(err) =>
      StripPrefixOfConcat(FatalPrefix, ErrorText(err));
      [FatalPrefix + ErrorText(err)]
  }

  const InfoPrefix := ProgramName + ": "

  /** The line `printInfo(msg)` logs and returns. */
  function InfoLine(msg: string): (line: string)
    ensures StripPrefix(InfoPrefix, line) == Some(msg)
  {
    StripPrefixOfConcat(InfoPrefix, msg);
    InfoPrefix + msg
  }

  /**
   * The process's log: the lines `log.Println` and the fatal logger wrote, and
   * whether a fatal line has ended the run.
   */
  class Log {
    var lines: seq<string>
    var halted: bool

    constructor ()
      ensures lines == [] && !halted
    {
      lines := [];
      halted := false;
    }

    /** `printInfo(msg)`: logs the prefixed message and returns it. */
    method PrintInfo(msg: string) returns (line: string)
      modifies this
      ensures line == InfoLine(msg)
      ensures lines == old(lines) + [line] && halted == old(halted)
    {
      line := InfoPrefix + msg;
      lines := lines + [line];
    }

    /** `check(e)`: a non-nil error is logged once, as a fatal line, and ends the run; nil does nothing. */
    method Check(e: Option<Error>)
      modifies this
      ensures lines == old(lines) + CheckReport(e)
      ensures halted == (old(halted) || e.Some?)
    {
      if e.Some? {
        lines := lines + [FatalPrefix + ErrorText(e.value)];
        halted := true;
      }
    }
  }

  /** What follows `prefix` in `s`, when `s` starts with it. */
  function StripPrefix(prefix: string, s: string): (r: Option<string>)
    ensures r.Some? <==> |prefix| <= |s| && s[..|prefix|] == prefix
    ensures r.Some? ==> prefix + r.value == s
  {
    if |prefix| <= |s| && s[..|prefix|] == prefix then Some(s[|prefix|..]) else None
  }

  lemma StripPrefixOfConcat(prefix: string, rest: string)
    ensures StripPrefix(prefix, prefix + rest) == Some(rest)
  {
    assert (prefix + rest)[..|prefix|] == prefix;
    assert (prefix + rest)[|prefix|..] == rest;
  }

  /** The index of the first `c` in `s`, if there is one. */
  function IndexOf(s: string, c: char): (r: Option<nat>)
    ensures r.Some? ==> r.value < |s| && s[r.value] == c && c !in s[..r.value]
    ensures r.None? ==> c !in s
  {
    if |s| == 0 then None
    else if s[0] == c then Some(0)
    else match IndexOf(s[1..], c)
      case None => None
      case Some(i) =>
        assert s[..i + 1] == [s[0]] + s[1..][..i];
        Some(i + 1)
  }

  /** Reads an HTTP status error message back into its URL and status message. */
  function SplitHttpErrorText(s: string): Option<(string, string)> {
    if |s| == 0 || s[0] != '<' then None
    else match IndexOf(s[1..], '>')
      case None => None
      case Some(i) =>
        if i + 2 < |s| && s[i + 2] == ' ' then Some((s[1..i + 1], s[i + 3..])) else None
  }

  /**
   * The message names the URL and the status message and nothing else, so it
   * determines both whenever the URL holds no '>'; the numeric code is not
   * written separately (the status message already starts with it).
   */
  lemma {:induction false} HttpErrorTextRoundTrip(url: string, code: int, message: string)
    requires '>' !in url
    ensures SplitHttpErrorText(ErrorText(HttpStatus(url, code, message))) == Some((url, message))
  {
    var s := HttpErrorText(url, message);
    assert s[1..] == url + "> " + message;
    assert (url + "> " + message)[..|url|] == url;
    assert (url + "> " + message)[|url|] == '>';
    IndexOfFirst(url + "> " + message, '>', |url|);
    assert s[1..|url| + 1] == url;
    assert s[|url| + 3..] == message;
  }

  lemma IndexOfFirst(s: string, c: char, i: nat)
    requires i < |s| && s[i] == c && c !in s[..i]
    ensures IndexOf(s, c) == Some(i)
  {
  }

  /** The status error message the collector's test pins down. */
  lemma HttpErrorExample()
    ensures ErrorText(HttpStatus("http://example.com", 420, "420 too sick")) == "<http://example.com> 420 too sick"
  {
    assert "<" + "http://example.com" == "<http://example.com";
    assert "<http://example.com" + "> " == "<http://example.com> ";
    assert "<http://example.com> " + "420 too sick" == "<http://example.com> 420 too sick";
  }

  /** `check` on the missing-path error and on nil, as the collector's test pins them down. */
  lemma CheckExamples()
    ensures CheckReport(Some(MissingTextfilesPath)) == ["** collect-aws-metadata: required: --textfiles-path"]
    ensures CheckReport(None) == []
  {
    FatalPrefixText();
    MissingPathLine();
  }

  lemma FatalPrefixText()
    ensures FatalPrefix == "** collect-aws-metadata: "
  {
  }

  lemma MissingPathLine()
    ensures "** collect-aws-metadata: " + "required: --textfiles-path"
         == "** collect-aws-metadata: required: --textfiles-path"
  {
  }

  /** `printInfo` on "hi" and on the empty message. */
  lemma InfoExamples()
    ensures InfoLine("hi") == "collect-aws-metadata: hi"
    ensures InfoLine("") == "collect-aws-metadata: "
  {
  }
}
