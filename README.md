# collect-aws-metadata, modelled in Dafny

`collect-aws-metadata` polls the EC2 instance metadata service and writes a
Prometheus textfile for node_exporter. It makes two GETs, one for the instance
id and one for the list of scheduled maintenance events. For each event it
reads the `NotBefore` date in the layout `"2 Jan 2006 15:04:05 GMT"` and
converts it to seconds since the epoch. It then writes one count line and one
line per event to `<textfiles-path>/collect-aws-metadata.prom`.

The model covers that pipeline, module by module:

- `Wrappers`: `Option` and `Result`.
- `Decimal`: Go's `%d`, with its reading back.
- `GmtTime`: `time.Parse` for the one fixed layout, written as Go's parse loop over the layout's chunks, and `time.Time.Unix`. The epoch conversion follows POSIX, section 4.16 of the POSIX.1-2017 Base Definitions, "Seconds Since the Epoch".
- `GmtSpelling`: which values that parse accepts, stated without the loop. A value reads as a time exactly when it spells a valid time in the layout (`Spells`): a day of one or two digits, spaces, the month abbreviation in any ASCII case, spaces, four year digits, spaces, an hour of one or two digits, `:`, two minute digits, `:`, two second digits, spaces, `GMT`. Also the canonical spelling `FormatGmt` and the values of the collector's tests.
- `Errors`: the error values and their `Error()` texts, plus the `check` and `printInfo` lines, with a `Log` class that records them.
- `Records`: the event, the fetched metadata and the options.
- `Metrics`: `writeMetrics`.
  - The `io.Writer` is a `Sink` class. It accepts a fixed number of further writes and then refuses.
  - The method's loop carries the invariant "the output holds the count line and the lines of the events handled so far".
  - `Render` is the specification of what should be written and which error ends the run.
- `Fetch`: `fetchURL` and `fetchMetadata`. The HTTP service is a `Host` object that answers through a function `serve` and records every URL requested. The JSON decoder is a function parameter.
- `Options`: the decision `parseArgs` takes once the flag values are known, the defaults, and the output path.

Three behaviours of `collect.go` are worth stating plainly:

- The instance id is the response body unchanged (collect.go:136); it is not trimmed.
- Any status other than exactly 200 is an error (collect.go:112-114), including the other 2xx codes.
- A request that fails keeps the HTTP library's own error (collect.go:108-110); it is not turned into a status error.

## Model

| member | source | states |
|---|---|---|
| Metrics.WriteMetrics | collect.go:73-102 | writes `Render(metadata).samples` in order, as many as the writer accepts. The writer then holds exactly their text after what it held before. The error is the first refused write, or else the rendering's own error: the first NotBefore that does not read. |
| Metrics.WriteEventLines | collect.go:84-101 | the loop: with the count line written, writes the event lines one by one. The writer's contents stay the text of the first `i+1` samples. |
| Metrics.WriteEvent | collect.go:85-99 | one loop pass: an unreadable NotBefore returns that error and writes nothing. Otherwise it writes exactly the event's detail line (prefix, instance, code, id, Unix seconds), or the writer's refusal leaves the output unchanged. |
| Metrics.Sink.Write | collect.go:74-82 | an `io.Writer` write: appends the whole text and succeeds, or changes nothing and returns the writer's error. |
| Metrics.CountLineFirst | collect.go:74-79 | the first sample's text (`SampleText`) is the count line `prefix + "aws_maintenance_event_count{instance=\"" + id + "\"} " + count + "\n"` with count `len(events)`, whatever the events hold. |
| Metrics.Render | collect.go:73-102 | the specification of `writeMetrics`: at least the count sample and at most one more sample per event; it ends with no error exactly when it holds a sample for every event. |
| Metrics.RenderLength | collect.go:84-101 | the first sample is the count; the number of event samples is the index of the first event whose NotBefore does not read, or the number of events if all read. |
| Metrics.RenderComplete | collect.go:84-101 | no error if and only if every NotBefore reads; then there are `len(events)+1` samples. |
| Metrics.RenderStopsAtFirstBadEvent | collect.go:84-88 | on an error, the last event rendered is followed by the first unreadable one. The error carries that value and the parse error it gives. |
| Metrics.EventSampleOf | collect.go:89-96 | sample `j+1` carries event `j`'s code, id and NotBefore as Unix seconds. |
| Metrics.SampleTextOneLine | collect.go:74-96 | a sample's text (`SampleText`, the two `Fprintf` formats) ends in `\n` and holds no other line break when the prefix and labels hold none. |
| Metrics.TextLines | collect.go:73-102 | `n` samples are written as exactly `n` lines. |
| Metrics.NoEventsExample | collect_test.go:114-120 | no events: only the count sample, count 0, no error. |
| Metrics.NoEventsText | collect_test.go:114-120 | with prefix `hi_` that sample is the single line `hi_aws_maintenance_event_count{instance=""} 0`. |
| Metrics.TwoEventsExample | collect_test.go:122-139 | the two-event test: count 2, then ev-ent1 at 1579510843 and ev-ent2 at 1547974843, in that order, no error. |
| GmtSpelling.ParseGmtSpells | collect.go:85 | `ParseGmt(s)` reads `s` as `t` if and only if `s` spells `t` in the layout and `t` is valid: the day exists in its month, hour < 24, minute and second < 60. Every other value is a parse error. |
| GmtSpelling.SpelledParses | collect.go:85 | each spelling of a valid time, with any case in the month and any runs of spaces, reads as that time. |
| GmtSpelling.ParsedPieces | collect.go:85 | a value that reads is cut into day, month, year, hour, minute and second texts and space runs that spell what it reads as. |
| GmtSpelling.MonthSpellingUnique | collect.go:85 | a text matches at most one month abbreviation, whatever its case, so the month read is determined by the text. |
| GmtSpelling.FormatThenParse | collect.go:85 | every time spelled in the layout reads back as itself; a day its month lacks gives a day-out-of-range error. |
| GmtSpelling.TrailingTextRejected | collect.go:85-88 | text after `GMT` makes the value a parse error, extra text. |
| GmtSpelling.OtherZoneRejected | collect.go:85-88 | the same text ending in ` UTC` is a parse error at the ` GMT` chunk. |
| GmtSpelling.LeapDayAccepted | collect.go:85 | `29 Feb 2020 00:00:00 GMT` reads. |
| GmtSpelling.LeapDayRejected | collect.go:85-88 | `29 Feb 2019 00:00:00 GMT` is a day-out-of-range error. |
| GmtSpelling.NotBefore2020 | collect_test.go:130 | `20 Jan 2020 09:00:43 GMT` reads as that time, which is 1579510843 seconds. |
| GmtSpelling.NotBefore2019 | collect_test.go:134 | `20 Jan 2019 09:00:43 GMT` reads as that time, which is 1547974843 seconds. |
| GmtTime.UnixSplits | collect.go:95 | `Unix` (`evTime.Unix()`) divided by 86400 is the number of days since 1 January 1970, and the remainder is the seconds into that day. |
| GmtTime.UnixEpoch | collect.go:95 | midnight UTC on 1 January 1970 is timestamp 0. |
| GmtTime.UnixIncreasing | collect.go:95 | `Unix` is strictly increasing in calendar order, so distinct valid times have distinct timestamps. |
| GmtTime.DaysBeforeYearCounts | collect.go:95 | the closed-form day count before a year equals the sum of the lengths of the years before it. |
| GmtTime.DaysBeforeMonthCounts | collect.go:95 | the cumulative table equals the sum of the lengths of the months before. |
| GmtTime.DaysIn | collect.go:85 | months have 28 to 31 days; 29 exactly for February of a leap year. |
| Decimal.FormatIntRoundTrip | collect.go:89-96 | the `%d` text of an integer (`FormatInt`) reads back as that integer. |
| Decimal.NatDigitsRoundTrip | collect.go:89-96 | the digits of a natural number read back as it. |
| Errors.HttpErrorText | collect.go:51-53 | the status error message is the URL in angle brackets, a space and the status message, with nothing else added. |
| Errors.HttpErrorTextRoundTrip | collect.go:51-53 | the message (`ErrorText` of a status error) gives back the URL and the status message when the URL has no `>`; the code is not written separately. |
| Errors.HttpErrorExample | collect_test.go:414-415 | `<http://example.com> 420 too sick` for the test's error. |
| Errors.CheckReport | collect.go:59-63 | one fatal line `"** collect-aws-metadata: " + e.Error()` (`ErrorText`) for an error, none for nil. |
| Errors.DateErrorQuotesValue | collect.go:85-88 | the message of a date error (`DateErrorText`) starts with `parsing time ` and the whole value in quotes. |
| Errors.CheckExamples | collect_test.go:42-48 | the missing-path error gives exactly `** collect-aws-metadata: required: --textfiles-path`; nil gives nothing. |
| Errors.InfoLine | collect.go:66-70 | the info line is `collect-aws-metadata: ` followed by the message, which can be read back from it. |
| Errors.Log.PrintInfo | collect.go:66-70 | logs that line once and returns it. |
| Errors.Log.Check | collect.go:59-63 | logs the fatal line once and ends the run for an error; nil changes nothing. |
| Fetch.Classify | collect.go:106-123 | the body only for status 200. Any other status is a status error with that URL, code and status line. A failed request is its own error. |
| Fetch.Host.Get | collect.go:107 | one GET: the answer is `serve(url)`, and the URL is appended to those requested. |
| Fetch.FetchURL | collect.go:106-123 | one request to that URL, its answer classified as above. |
| Fetch.PollURLs | collect.go:128-129 | the events URL is the base URL and `/latest/meta-data/events/maintenance/scheduled`; the instance URL is the base URL and `/1.0/meta-data/instance-id`. The two never coincide. |
| Fetch.FetchMetadata | collect.go:126-151 | requests exactly `PollRequests` and returns `Poll`, the specification functions whose properties are the four rows below. It logs `Fetched <eventsURL>; <n> events` (`FetchedMessage`) only on success. |
| Fetch.FetchedMessageReadsBack | collect.go:147 | the logged message gives back the event count, written with `%d` between the URL and ` events`. |
| Fetch.InstanceRequestedFirst | collect.go:128-138 | in `PollRequests`, the instance-id URL is requested first; the events URL second, if at all. |
| Fetch.InstanceFailureStops | collect.go:131-134 | a failed instance-id fetch returns its error, and the events URL is never requested. |
| Fetch.PollSucceeds | collect.go:126-151 | `Poll` succeeds if and only if both answers are 200 and the body decodes. The instance id is then the body unchanged, and the events are the decoded ones. |
| Fetch.EventsFailureFails | collect.go:138-146 | after the instance id, a failed events fetch or decode fails the whole poll with that error. |
| Fetch.StatusErrorNamesURL | collect.go:112-114 | a non-200 answer's error message gives back the URL and status line. |
| Options.ParseArgs | collect.go:153-192 | options from the flags or their defaults: `http://169.254.169.254`, `""`, `""`. The error is `Decision`'s, and the options are returned with the error too. |
| Options.Decision | collect.go:183-191 | the version request wins; otherwise an empty path is the missing-path error; otherwise none. Each case holds if and only if its condition does. |
| Options.VersionBeforePath | collect.go:183-188 | with the path missing, `--version` still gives the version request. |
| Options.OutputPath | collect.go:210 | the output file is the directory, `/`, then `collect-aws-metadata.prom`. |
| Options.OutputPathExample | collect.go:210 | `.` gives `./collect-aws-metadata.prom`. |

## Left out

- HTTP transport (`http.Get`, the text of `resp.Status`, `ioutil.ReadAll`): the service is the function `Host.serve`. A body read that fails is taken as the body read, since the code ignores that error.
- JSON decoding (`encoding/json`): a function parameter that yields the events in order or an error text.
- Flag tokenisation by the `flag` package, including its ignored parse error: `ParseArgs` starts from the values the flags ended up with.
- `main`: `os.Create`, `os.NewFile`, `Close`, printing `VERSION`, `os.Exit`, and the final `Wrote <file>` info line. They are process and file plumbing; the file name is `OutputPath`, and the line format is `InfoLine`. The `logFatalf`/`osExit` test seams are the `Log` class.
- GmtTime.ParseGmt: does not model the fractional seconds Go's parser also accepts right after the seconds field (`09:00:43.5`). The model fails such a value at the ` GMT` chunk, with a cannot-parse error naming the text from the `.` on.
- GmtTime.ParseGmt: does not model Go's general layout engine, only this one layout.
- Errors.DateErrorText: matches Go's `*time.ParseError` wording only in outline.
- Metrics.Sink.Write: does not model partial writes. A write is accepted whole or refused whole.
- Metrics.SampleText: writes label values verbatim, as the code does. The model therefore has no escaping, and a label holding a quote or a newline corrupts the output.
- Integers are unbounded: Go's `int64` seconds and `int` counts cannot overflow for the four-digit years and the lengths the code can meet.
