/**
 * The metrics renderer: one count sample, then one sample per maintenance
 * event, in the Prometheus text exposition format, written line by line to an
 * output that may refuse a write.
 */
module Metrics {
  import opened Wrappers
  import opened Decimal
  import opened GmtTime
  import opened Errors
  import opened Records
  import opened GmtSpelling

  /**
   * The `io.Writer` the metrics go to. It accepts `budget` more writes, each
   * appended whole to `contents`, and refuses every write after that with the
   * error text `refusal` (a full disk, a closed file).
   */
  class Sink {
    var contents: string
    var budget: nat
    const refusal: string

    constructor (budget: nat, refusal: string)
      ensures contents == "" && this.budget == budget && this.refusal == refusal
    {
      contents := "";
      this.budget := budget;
      this.refusal := refusal;
    }

    /** `Write(s)`: appends `s` and succeeds, or changes nothing and fails. */
    method Write(s: string) returns (err: Option<string>)
      modifies this
      ensures old(budget) > 0 ==> err == None && contents == old(contents) + s && budget == old(budget) - 1
      ensures old(budget) == 0 ==> err == Some(refusal) && contents == old(contents) && budget == 0
    {
      if budget == 0 {
        err := Some(refusal);
      } else {
        contents := contents + s;
        budget := budget - 1;
        err := None;
      }
    }
  }

  // ---------------------------------------------------------------------------
  // What is written: samples, and their text.

  /** One sample of the exposition: the event count of an instance, or the start of one event. */
  datatype Sample =
    | EventCount(instance: string, count: int)
    | EventStart(instance: string, code: string, eventId: string, seconds: int)

  /** The metric names, after the caller's prefix. */
  const CountMetric := "aws_maintenance_event_count"
  const EventMetric := "aws_maintenance_event"

  /** A sample as one line of text; the label values are inserted as they are, without escaping. */
  function SampleText(prefix: string, s: Sample): string {
    match s
    case EventCount(instance, count) =>
      prefix + CountMetric + "{instance=\"" + instance + "\"} " + FormatInt(count) + "\n"
    case EventStart(instance, code, eventId, seconds) =>
      prefix + EventMetric + "{instance=\"" + instance + "\", code=\"" + code
        + "\", id=\"" + eventId + "\"} " + FormatInt(seconds) + "\n"
  }

  /** The samples' lines one after the other. */
  function Text(prefix: string, samples: seq<Sample>): string {
    if |samples| == 0 then "" else Text(prefix, samples[..|samples| - 1]) + SampleText(prefix, samples[|samples| - 1])
  }

  lemma TextSnoc(prefix: string, samples: seq<Sample>, i: nat)
    requires i < |samples|
    ensures Text(prefix, samples[..i + 1]) == Text(prefix, samples[..i]) + SampleText(prefix, samples[i])
  {
    assert samples[..i + 1][..i] == samples[..i];
  }

  // ---------------------------------------------------------------------------
  // What `writeMetrics` means to write.

  /** What reading each event's NotBefore under the layout gives, in event order. */
  function NotBefores(events: seq<MaintenanceEvent>): (parses: seq<Result<DateTime, DateError>>)
    ensures |parses| == |events|
    ensures forall j :: 0 <= j < |parses| && parses[j].Success? ==> Valid(parses[j].value)
  {
    seq(|events|, j requires 0 <= j < |events| => ParseGmt(events[j].notBefore))
  }

  /** How many outcomes, from the first on, are successes. */
  function ReadablePrefix(parses: seq<Result<DateTime, DateError>>): (k: nat)
    ensures k <= |parses|
    ensures forall j :: 0 <= j < k ==> parses[j].Success?
    ensures k < |parses| ==> parses[k].Failure?
  {
    if |parses| == 0 || parses[0].Failure? then 0
    else 1 + ReadablePrefix(parses[1..])
  }

  /** The samples `writeMetrics` means to write and the error it ends with, given an output that takes every write. */
  datatype Rendering = Rendering(samples: seq<Sample>, failure: Option<Error>)

  /**
   * The count sample, then one sample for each event before the first one
   * whose NotBefore does not read; that event, if any, is the error.
   */
  function Render(metadata: FetchedMetadata): (r: Rendering)
    ensures 1 <= |r.samples| <= |metadata.events| + 1
    ensures r.failure.None? <==> |r.samples| == |metadata.events| + 1
  {
    var events := metadata.events;
    var parses := NotBefores(events);
    var k := ReadablePrefix(parses);
    Rendering(
      [EventCount(metadata.instanceID, |events|)]
        + seq(k, j requires 0 <= j < k => EventStart(metadata.instanceID, events[j].code, events[j].eventId, Unix(parses[j].value))),
      if k < |events| then Some(BadNotBefore(events[k].notBefore, parses[k].error)) else None)
  }

  /**
   * The count sample comes first, whatever the events; an event sample follows
   * for each event before the first unreadable NotBefore, in input order.
   */
  lemma RenderShape(metadata: FetchedMetadata)
    ensures var r := Render(metadata);
            var events := metadata.events;
            var parses := NotBefores(events);
            var k := ReadablePrefix(parses);
            && |r.samples| == 1 + k
            && r.samples[0] == EventCount(metadata.instanceID, |events|)
            && (forall j :: 0 <= j < k ==>
                  r.samples[j + 1] == EventStart(metadata.instanceID, events[j].code, events[j].eventId, Unix(parses[j].value)))
            && (k < |events| ==> r.failure == Some(BadNotBefore(events[k].notBefore, parses[k].error)))
            && (k == |events| ==> r.failure == None)
  {
    RenderCount(metadata);
    RenderFailure(metadata);
    forall j | 0 <= j < ReadablePrefix(NotBefores(metadata.events))
      ensures Render(metadata).samples[j + 1]
           == EventStart(metadata.instanceID, metadata.events[j].code, metadata.events[j].eventId,
                         Unix(NotBefores(metadata.events)[j].value))
    {
      RenderEvent(metadata, j);
    }
  }

  /**
   * The count sample comes first; after it there are as many event samples as
   * there are events, from the first on, whose NotBefore reads, so the next
   * event, if there is one, is the first that does not read.
   */
  lemma RenderLength(metadata: FetchedMetadata)
    ensures var events := metadata.events;
            var n := |Render(metadata).samples| - 1;
            && n <= |events|
            && Render(metadata).samples[0] == EventCount(metadata.instanceID, |events|)
            && (forall j :: 0 <= j < n ==> ParseGmt(events[j].notBefore).Success?)
            && (n < |events| ==> ParseGmt(events[n].notBefore).Failure?)
  {
    RenderCount(metadata);
    ReadablePrefixParses(metadata.events, |Render(metadata).samples| - 1);
  }

  /** The events before the readable prefix's end all read; the one at its end, if any, does not. */
  lemma ReadablePrefixParses(events: seq<MaintenanceEvent>, n: nat)
    requires n == ReadablePrefix(NotBefores(events))
    ensures n <= |events|
    ensures forall j :: 0 <= j < n ==> ParseGmt(events[j].notBefore).Success?
    ensures n < |events| ==> ParseGmt(events[n].notBefore).Failure?
  {
    forall j | 0 <= j < n
      ensures ParseGmt(events[j].notBefore).Success?
    {
      NotBeforeAt(events, j);
    }
    if n < |events| {
      NotBeforeAt(events, n);
    }
  }

  lemma NotBeforeAt(events: seq<MaintenanceEvent>, j: nat)
    requires j < |events|
    ensures NotBefores(events)[j] == ParseGmt(events[j].notBefore)
  {
  }

  lemma RenderCount(metadata: FetchedMetadata)
    ensures |Render(metadata).samples| == 1 + ReadablePrefix(NotBefores(metadata.events))
    ensures Render(metadata).samples[0] == EventCount(metadata.instanceID, |metadata.events|)
  {
  }

  lemma RenderEvent(metadata: FetchedMetadata, j: nat)
    requires j < ReadablePrefix(NotBefores(metadata.events))
    ensures j + 1 < |Render(metadata).samples|
    ensures Render(metadata).samples[j + 1]
         == EventStart(metadata.instanceID, metadata.events[j].code, metadata.events[j].eventId,
                       Unix(NotBefores(metadata.events)[j].value))
  {
  }

  lemma RenderFailure(metadata: FetchedMetadata)
    ensures var parses := NotBefores(metadata.events);
            var k := ReadablePrefix(parses);
            && (k < |parses| ==> Render(metadata).failure == Some(BadNotBefore(metadata.events[k].notBefore, parses[k].error)))
            && (k == |parses| ==> Render(metadata).failure == None)
  {
  }

  function Min(a: int, b: int): int {
    if a <= b then a else b
  }

  // ---------------------------------------------------------------------------
  // Writing.

  /**
   * `writeMetrics(writer, metadata, prefix)`: writes the count line before
   * looking at any event, then for each event in order reads its NotBefore and
   * writes its line. It stops at the first NotBefore that does not read or the
   * first write the output refuses; what was written stays written.
   */
  method WriteMetrics(w: Sink, metadata: FetchedMetadata, prefix: string) returns (err: Option<Error>)
    modifies w
    ensures var r := Render(metadata);
            var n := Min(old(w.budget), |r.samples|);
            && w.contents == old(w.contents) + Text(prefix, r.samples[..n])
            && w.budget == old(w.budget) - n
            && err == (if n < |r.samples| then Some(WriteFailed(w.refusal)) else r.failure)
  {
    var count := EventCount(metadata.instanceID, |metadata.events|);
    var werr := w.Write(SampleText(prefix, count));
    if werr.Some? {
      RenderShape(metadata);
      assert Render(metadata).samples[..0] == [];
      return Some(WriteFailed(werr.value));
    }
    CountLineFirst(metadata, prefix);
    err := WriteEventLines(w, metadata, prefix, old(w.contents), old(w.budget));
  }

  /** The text of the first sample alone is the count line. */
  lemma CountLineFirst(metadata: FetchedMetadata, prefix: string)
    ensures Text(prefix, Render(metadata).samples[..1])
         == SampleText(prefix, EventCount(metadata.instanceID, |metadata.events|))
  {
    var samples := Render(metadata).samples;
    RenderShape(metadata);
    TextSnoc(prefix, samples, 0);
    assert samples[..0] == [];
    assert "" + SampleText(prefix, samples[0]) == SampleText(prefix, samples[0]);
  }

  /** The `for` loop of `writeMetrics`, entered once the count line is written. */
  method WriteEventLines(w: Sink, metadata: FetchedMetadata, prefix: string, ghost start: string, ghost budget: nat)
    returns (err: Option<Error>)
    requires budget == w.budget + 1
    requires w.contents == start + Text(prefix, Render(metadata).samples[..1])
    modifies w
    ensures var r := Render(metadata);
            var n := Min(budget, |r.samples|);
            && w.contents == start + Text(prefix, r.samples[..n])
            && w.budget == budget - n
            && err == (if n < |r.samples| then Some(WriteFailed(w.refusal)) else r.failure)
  {
    ghost var samples := Render(metadata).samples;
    ghost var parses := NotBefores(metadata.events);
    ghost var k := ReadablePrefix(parses);
    var events := metadata.events;
    var i := 0;
    while i < |events|
      invariant i <= k
      invariant w.contents == start + Text(prefix, samples[..i + 1])
      invariant w.budget == budget - (i + 1)
    {
      err := WriteEvent(w, metadata.instanceID, events, i, prefix);
      if err.Some? {
        if parses[i].Failure? {
          RenderStopsAt(metadata, i);
        } else {
          SampleAfter(metadata, prefix, i);
        }
        WrittenSoFar(prefix, samples, budget, i);
        return;
      }
      SampleAfter(metadata, prefix, i);
      AppendAssociates(start, Text(prefix, samples[..i + 1]), SampleText(prefix, samples[i + 1]));
      i := i + 1;
    }
    RenderReadsAll(metadata);
    WrittenSoFar(prefix, samples, budget, i);
    return None;
  }

  /** Stopping after `i + 1` samples, because they were all or the budget was spent, wrote `Min(budget, |samples|)` of them. */
  lemma WrittenSoFar(prefix: string, samples: seq<Sample>, budget: nat, i: nat)
    requires i + 1 <= |samples| && i + 1 <= budget
    requires i + 1 == |samples| || i + 1 == budget
    ensures Min(budget, |samples|) == i + 1
    ensures Text(prefix, samples[..Min(budget, |samples|)]) == Text(prefix, samples[..i + 1])
  {
  }

  /** Event `i` reads: its sample follows the ones before it. */
  lemma SampleAfter(metadata: FetchedMetadata, prefix: string, i: nat)
    requires i < |metadata.events| && i <= ReadablePrefix(NotBefores(metadata.events))
    requires NotBefores(metadata.events)[i].Success?
    ensures i < ReadablePrefix(NotBefores(metadata.events))
    ensures i + 2 <= |Render(metadata).samples|
    ensures Valid(NotBefores(metadata.events)[i].value)
    ensures Render(metadata).samples[i + 1]
         == EventStart(metadata.instanceID, metadata.events[i].code, metadata.events[i].eventId,
                       Unix(NotBefores(metadata.events)[i].value))
    ensures Text(prefix, Render(metadata).samples[..i + 2])
         == Text(prefix, Render(metadata).samples[..i + 1]) + SampleText(prefix, Render(metadata).samples[i + 1])
  {
    PrefixContinues(NotBefores(metadata.events), i);
    RenderEvent(metadata, i);
    TextSnoc(prefix, Render(metadata).samples, i + 1);
  }

  lemma PrefixContinues(parses: seq<Result<DateTime, DateError>>, i: nat)
    requires i < |parses| && i <= ReadablePrefix(parses) && parses[i].Success?
    ensures i < ReadablePrefix(parses)
  {
  }

  /** Event `i` does not read: the rendering ends with it. */
  lemma RenderStopsAt(metadata: FetchedMetadata, i: nat)
    requires i < |metadata.events| && i <= ReadablePrefix(NotBefores(metadata.events))
    requires NotBefores(metadata.events)[i].Failure?
    ensures |Render(metadata).samples| == i + 1
    ensures Render(metadata).failure
         == Some(BadNotBefore(metadata.events[i].notBefore, NotBefores(metadata.events)[i].error))
  {
    RenderShape(metadata);
  }

  /** Every event was read: the rendering holds them all, and no error. */
  lemma RenderReadsAll(metadata: FetchedMetadata)
    requires |metadata.events| <= ReadablePrefix(NotBefores(metadata.events))
    ensures |Render(metadata).samples| == |metadata.events| + 1
    ensures Render(metadata).failure == None
  {
    RenderShape(metadata);
  }

  /**
   * One pass of the loop body, for event `i`: reads its NotBefore, and only
   * when that reads writes the event's line.
   */
  method WriteEvent(w: Sink, instance: string, events: seq<MaintenanceEvent>, i: nat, prefix: string)
    returns (err: Option<Error>)
    requires i < |events|
    modifies w
    ensures var parsed := NotBefores(events)[i];
            parsed.Failure? ==>
              err == Some(BadNotBefore(events[i].notBefore, parsed.error)) && w.contents == old(w.contents) && w.budget == old(w.budget)
    ensures var parsed := NotBefores(events)[i];
            parsed.Success? && old(w.budget) == 0 ==>
              err == Some(WriteFailed(w.refusal)) && w.contents == old(w.contents) && w.budget == 0
    ensures var parsed := NotBefores(events)[i];
            parsed.Success? && old(w.budget) > 0 ==>
              && Valid(parsed.value)
              && err == None
              && w.contents == old(w.contents)
                   + SampleText(prefix, EventStart(instance, events[i].code, events[i].eventId, Unix(parsed.value)))
              && w.budget == old(w.budget) - 1
  {
    var ev := events[i];
    var result := ParseGmt(ev.notBefore);
    assert result == NotBefores(events)[i];
    if result.Failure? {
      return Some(BadNotBefore(ev.notBefore, result.error));
    }
    var line := SampleText(prefix, EventStart(instance, ev.code, ev.eventId, Unix(result.value)));
    var werr := w.Write(line);
    if werr.Some? {
      return Some(WriteFailed(werr.value));
    }
    return None;
  }

  // ---------------------------------------------------------------------------
  // What the rendering promises.

  /** The rendering ends without an error exactly when every NotBefore reads; every event then has its sample. */
  lemma RenderComplete(metadata: FetchedMetadata)
    ensures Render(metadata).failure.None?
        <==> forall j :: 0 <= j < |metadata.events| ==> ParseGmt(metadata.events[j].notBefore).Success?
    ensures Render(metadata).failure.None? ==> |Render(metadata).samples| == |metadata.events| + 1
  {
    RenderShape(metadata);
    var events := metadata.events;
    var parses := NotBefores(events);
    var k := ReadablePrefix(parses);
    if k < |events| {
      assert parses[k] == ParseGmt(events[k].notBefore);
    } else {
      forall j | 0 <= j < |events|
        ensures ParseGmt(events[j].notBefore).Success?
      {
        assert parses[j] == ParseGmt(events[j].notBefore);
      }
    }
  }

  /**
   * A rendering that ends in an error stops at the event whose NotBefore does
   * not read, right after the samples of the events before it (which all read,
   * by `EventSampleOf`); the error names that value and why it does not read.
   */
  lemma RenderStopsAtFirstBadEvent(metadata: FetchedMetadata)
    requires Render(metadata).failure.Some?
    ensures var r := Render(metadata);
            var k := |r.samples| - 1;
            && k < |metadata.events|
            && r.failure.value.BadNotBefore?
            && r.failure.value.value == metadata.events[k].notBefore
            && ParseGmt(r.failure.value.value) == Failure(r.failure.value.cause)
  {
    RenderCount(metadata);
    RenderFailure(metadata);
    var events := metadata.events;
    var k := ReadablePrefix(NotBefores(events));
    assert NotBefores(events)[k] == ParseGmt(events[k].notBefore);
  }

  /** The sample after the count for event `j` carries that event's code, id and NotBefore in seconds since the epoch. */
  lemma EventSampleOf(metadata: FetchedMetadata, j: nat)
    requires j + 1 < |Render(metadata).samples|
    ensures j < |metadata.events|
    ensures ParseGmt(metadata.events[j].notBefore).Success?
    ensures Render(metadata).samples[j + 1]
         == EventStart(metadata.instanceID, metadata.events[j].code, metadata.events[j].eventId,
                       Unix(ParseGmt(metadata.events[j].notBefore).value))
  {
    RenderShape(metadata);
    assert NotBefores(metadata.events)[j] == ParseGmt(metadata.events[j].notBefore);
  }

  // ---------------------------------------------------------------------------
  // One line per sample.

  predicate OneLine(s: string) {
    forall i :: 0 <= i < |s| ==> s[i] != '\n'
  }

  function NewlineCount(s: string): nat {
    if |s| == 0 then 0 else NewlineCount(s[..|s| - 1]) + if s[|s| - 1] == '\n' then 1 else 0
  }

  lemma {:induction false} NewlineCountAppend(a: string, b: string)
    ensures NewlineCount(a + b) == NewlineCount(a) + NewlineCount(b)
    decreases |b|
  {
    if |b| == 0 {
      assert a + b == a;
    } else {
      assert (a + b)[..|a + b| - 1] == a + b[..|b| - 1];
      NewlineCountAppend(a, b[..|b| - 1]);
    }
  }

  lemma {:induction false} OneLineCount(s: string)
    requires OneLine(s)
    ensures NewlineCount(s) == 0
  {
    if |s| > 0 {
      OneLineCount(s[..|s| - 1]);
    }
  }

  lemma OneLineAppend(a: string, b: string)
    requires OneLine(a) && OneLine(b)
    ensures OneLine(a + b)
  {
    forall i | 0 <= i < |a + b|
      ensures (a + b)[i] != '\n'
    {
      if i >= |a| {
        assert (a + b)[i] == b[i - |a|];
      }
    }
  }

  lemma FormatIntOneLine(n: int)
    ensures OneLine(FormatInt(n))
  {
    forall i | 0 <= i < |FormatInt(n)|
      ensures FormatInt(n)[i] != '\n'
    {
      FormatIntCharacters(n, i);
    }
  }

  /** The label values of a sample hold no line break. */
  predicate LabelsOneLine(s: Sample) {
    && OneLine(s.instance)
    && (s.EventStart? ==> OneLine(s.code) && OneLine(s.eventId))
  }

  /** A sample's text is one line: it ends with the only line break it holds. */
  lemma SampleTextOneLine(prefix: string, s: Sample)
    requires OneLine(prefix) && LabelsOneLine(s)
    ensures NewlineCount(SampleText(prefix, s)) == 1
    ensures SampleText(prefix, s)[|SampleText(prefix, s)| - 1] == '\n'
  {
    var line: string;
    match s {
      case EventCount(instance, count) =>
        FormatIntOneLine(count);
        var a := prefix + CountMetric;
        OneLineAppend(prefix, CountMetric);
        OneLineAppend(a, "{instance=\"");
        OneLineAppend(a + "{instance=\"", instance);
        OneLineAppend(a + "{instance=\"" + instance, "\"} ");
        OneLineAppend(a + "{instance=\"" + instance + "\"} ", FormatInt(count));
        line := a + "{instance=\"" + instance + "\"} " + FormatInt(count);
        assert OneLine(line);
      case EventStart(instance, code, eventId, seconds) =>
        FormatIntOneLine(seconds);
        OneLineAppend(prefix, EventMetric);
        OneLineAppend(prefix + EventMetric, "{instance=\"");
        var a := prefix + EventMetric + "{instance=\"";
        OneLineAppend(a, instance);
        OneLineAppend(a + instance, "\", code=\"");
        var b := a + instance + "\", code=\"";
        OneLineAppend(b, code);
        OneLineAppend(b + code, "\", id=\"");
        var c := b + code + "\", id=\"";
        OneLineAppend(c, eventId);
        OneLineAppend(c + eventId, "\"} ");
        OneLineAppend(c + eventId + "\"} ", FormatInt(seconds));
        line := c + eventId + "\"} " + FormatInt(seconds);
        assert OneLine(line);
    }
    assert SampleText(prefix, s) == line + "\n";
    OneLineCount(line);
    NewlineCountAppend(line, "\n");
    assert NewlineCount("\n") == NewlineCount("\n"[..0]) + 1;
    assert NewlineCount(SampleText(prefix, s)) == 1;
    assert SampleText(prefix, s)[|SampleText(prefix, s)| - 1] == '\n';
  }

  /** The text of `n` samples whose labels hold no line break is `n` lines. */
  lemma {:induction false} TextLines(prefix: string, samples: seq<Sample>)
    requires OneLine(prefix)
    requires forall j :: 0 <= j < |samples| ==> LabelsOneLine(samples[j])
    ensures NewlineCount(Text(prefix, samples)) == |samples|
  {
    if |samples| > 0 {
      var last := |samples| - 1;
      TextLines(prefix, samples[..last]);
      SampleTextOneLine(prefix, samples[last]);
      NewlineCountAppend(Text(prefix, samples[..last]), SampleText(prefix, samples[last]));
    }
  }

  // ---------------------------------------------------------------------------
  // The cases the collector's own tests pin down.

  /** No events: the count alone, 0, and no error ... */
  lemma NoEventsExample()
    ensures Render(FetchedMetadata("", [])) == Rendering([EventCount("", 0)], None)
  {
    assert NotBefores([]) == [];
    RenderShape(FetchedMetadata("", []));
  }

  /** ... written as the one line the test expects. */
  lemma NoEventsText()
    ensures Text("hi_", [EventCount("", 0)]) == "hi_" + CountMetric + "{instance=\"\"} 0\n"
  {
    assert [EventCount("", 0)][..0] == [];
    assert FormatInt(0) == "0";
    var line := SampleText("hi_", EventCount("", 0));
    assert Text("hi_", [EventCount("", 0)]) == "" + line;
    assert "" + line == line;
    var head := "hi_" + CountMetric;
    assert line == head + "{instance=\"" + "" + "\"} " + "0" + "\n";
    AppendAssociates(head + "{instance=\"" + "" + "\"} ", "0", "\n");
    AppendAssociates(head + "{instance=\"" + "", "\"} ", "0" + "\n");
    AppendAssociates(head + "{instance=\"", "", "\"} " + ("0" + "\n"));
    AppendAssociates(head, "{instance=\"", "" + ("\"} " + ("0" + "\n")));
    assert "{instance=\"" + ("" + ("\"} " + ("0" + "\n"))) == "{instance=\"\"} 0\n";
  }

  /** Two events whose NotBefore values read: the count 2, then each event's id and start in input order. */
  lemma TwoEventsExample(metadata: FetchedMetadata)
    requires metadata == FetchedMetadata("q-qqqqqq", [
               MaintenanceEvent("20 Jan 2020 09:00:43 GMT", "system-reboot", "", "ev-ent1", "", ""),
               MaintenanceEvent("20 Jan 2019 09:00:43 GMT", "system-reboot", "", "ev-ent2", "", "")])
    ensures Render(metadata) == Rendering([
              EventCount("q-qqqqqq", 2),
              EventStart("q-qqqqqq", "system-reboot", "ev-ent1", 1579510843),
              EventStart("q-qqqqqq", "system-reboot", "ev-ent2", 1547974843)], None)
  {
    var events := metadata.events;
    NotBefore2020(events[0].notBefore);
    NotBefore2019(events[1].notBefore);
    RenderComplete(metadata);
    RenderShape(metadata);
    EventSampleOf(metadata, 0);
    EventSampleOf(metadata, 1);
  }
}
