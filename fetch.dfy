/**
 * Polling the EC2 instance metadata service: one GET for the instance id, one
 * for the scheduled maintenance events, each answer other than status 200
 * turned into an error. The service and the JSON decoder are parameters.
 */
module Fetch {
  import opened Wrappers
  import opened Decimal
  import opened Errors
  import opened Records

  const ScheduledPath := "/latest/meta-data/events/maintenance/scheduled"
  const InstanceIdPath := "/1.0/meta-data/instance-id"

  /** What one `http.Get` yields: no response at all, or a status code, its status line and the body. */
  datatype Response =
    | TransportError(detail: string)
    | Reply(code: int, status: string, body: string)

  /** The metadata service as seen over HTTP: it answers each URL with `serve(url)` and records the URLs asked for. */
  class Host {
    const serve: string -> Response
    var requested: seq<string>

    constructor (serve: string -> Response)
      ensures this.serve == serve && requested == []
    {
      this.serve := serve;
      requested := [];
    }

    method Get(url: string) returns (resp: Response)
      modifies this
      ensures resp == serve(url) && requested == old(requested) + [url]
    {
      requested := requested + [url];
      resp := serve(url);
    }
  }

  /**
   * How `fetchURL` reads a response: the body of a 200 reply; any other
   * status is a status error naming the URL, and a failed request keeps its
   * own error.
   */
  function Classify(url: string, resp: Response): (r: Result<string, Error>)
    ensures r.Success? <==> resp.Reply? && resp.code == 200
    ensures r.Success? ==> r.value == resp.body
    ensures resp.Reply? && resp.code != 200 ==> r == Failure(HttpStatus(url, resp.code, resp.status))
    ensures resp.TransportError? ==> r == Failure(Transport(resp.detail))
  {
    match resp
    case TransportError(detail) => Failure(Transport(detail))
    case Reply(code, status, body) => if code == 200 then Success(body) else Failure(HttpStatus(url, code, status))
  }

  /** `fetchURL(url)`: one request, its response classified. */
  method FetchURL(h: Host, url: string) returns (r: Result<string, Error>)
    modifies h
    ensures h.requested == old(h.requested) + [url]
    ensures r == Classify(url, h.serve(url))
  {
    var resp := h.Get(url);
    r := Classify(url, resp);
  }

  function InstanceURL(baseURL: string): string {
    baseURL + InstanceIdPath
  }

  function EventsURL(baseURL: string): string {
    baseURL + ScheduledPath
  }

  /** The two URLs a poll asks for: the base URL followed by each path. They never coincide: the paths differ in length. */
  lemma PollURLs(baseURL: string)
    ensures InstanceURL(baseURL) == baseURL + "/1.0/meta-data/instance-id"
    ensures EventsURL(baseURL) == baseURL + "/latest/meta-data/events/maintenance/scheduled"
    ensures InstanceURL(baseURL) != EventsURL(baseURL)
  {
    assert |InstanceURL(baseURL)| == |baseURL| + 26;
    assert |EventsURL(baseURL)| == |baseURL| + 46;
  }

  /** The message `fetchMetadata` logs after a successful poll. */
  function FetchedMessage(eventsURL: string, count: int): string {
    "Fetched " + eventsURL + "; " + FormatInt(count) + " events"
  }

  /** The logged message gives back the event count, written after the URL and before " events". */
  lemma FetchedMessageReadsBack(eventsURL: string, count: int)
    ensures var head := "Fetched " + eventsURL + "; ";
            var tail := StripPrefix(head, FetchedMessage(eventsURL, count));
            && tail.Some?
            && 7 < |tail.value|
            && tail.value[|tail.value| - 7..] == " events"
            && ParseInt(tail.value[..|tail.value| - 7]) == Some(count)
  {
    var head := "Fetched " + eventsURL + "; ";
    var tail := FormatInt(count) + " events";
    assert FetchedMessage(eventsURL, count) == head + tail;
    StripPrefixOfConcat(head, tail);
    assert tail[..|tail| - 7] == FormatInt(count);
    FormatIntRoundTrip(count);
  }

  /**
   * What a poll of `serve` at `baseURL` returns: the instance id body taken as
   * it is and the decoded events, or the first error met.
   */
  function Poll(serve: string -> Response, decode: string -> Result<seq<MaintenanceEvent>, string>, baseURL: string)
    : Result<FetchedMetadata, Error>
  {
    var instance :- Classify(InstanceURL(baseURL), serve(InstanceURL(baseURL)));
    var body :- Classify(EventsURL(baseURL), serve(EventsURL(baseURL)));
    match decode(body)
    case Failure(detail) => Failure(Decode(detail))
    case Success(events) => Success(FetchedMetadata(instance, events))
  }

  /** The URLs a poll requests, in order: the events URL only once the instance id was read. */
  function PollRequests(serve: string -> Response, baseURL: string): seq<string> {
    if Classify(InstanceURL(baseURL), serve(InstanceURL(baseURL))).Success?
    then [InstanceURL(baseURL), EventsURL(baseURL)]
    else [InstanceURL(baseURL)]
  }

  /**
   * `fetchMetadata(opt)`: fetches the instance id, then the events, and
   * decodes them, returning at the first failure; logs the URL and the event
   * count only when all three succeed.
   */
  method FetchMetadata(h: Host, log: Log, decode: string -> Result<seq<MaintenanceEvent>, string>, opt: CollectOptions)
    returns (r: Result<FetchedMetadata, Error>)
    modifies h, log
    ensures r == Poll(h.serve, decode, opt.baseURL)
    ensures h.requested == old(h.requested) + PollRequests(h.serve, opt.baseURL)
    ensures log.halted == old(log.halted)
    ensures log.lines == old(log.lines)
              + (if r.Success? then [InfoLine(FetchedMessage(EventsURL(opt.baseURL), |r.value.events|))] else [])
  {
    var eventsURL := opt.baseURL + ScheduledPath;
    var instanceURL := opt.baseURL + InstanceIdPath;
    var instance := FetchURL(h, instanceURL);
    if instance.Failure? {
      return Failure(instance.error);
    }
    var body := FetchURL(h, eventsURL);
    if body.Failure? {
      return Failure(body.error);
    }
    var decoded := decode(body.value);
    if decoded.Failure? {
      return Failure(Decode(decoded.error));
    }
    r := Success(FetchedMetadata(instance.value, decoded.value));
    var _ := log.PrintInfo(FetchedMessage(eventsURL, |decoded.value|));
  }

  // ---------------------------------------------------------------------------
  // What a poll promises.

  /** The instance id is always asked for first, and the events URL second if at all. */
  lemma InstanceRequestedFirst(serve: string -> Response, baseURL: string)
    ensures var urls := PollRequests(serve, baseURL);
            1 <= |urls| <= 2 && urls[0] == baseURL + InstanceIdPath
            && (|urls| == 2 ==> urls[1] == baseURL + ScheduledPath)
  {
  }

  /** A failed instance-id fetch ends the poll: the events are never requested, and the error is that fetch's. */
  lemma InstanceFailureStops(serve: string -> Response, decode: string -> Result<seq<MaintenanceEvent>, string>, baseURL: string)
    requires Classify(InstanceURL(baseURL), serve(InstanceURL(baseURL))).Failure?
    ensures PollRequests(serve, baseURL) == [baseURL + InstanceIdPath]
    ensures Poll(serve, decode, baseURL) == Failure(Classify(InstanceURL(baseURL), serve(InstanceURL(baseURL))).error)
  {
  }

  /**
   * A poll succeeds exactly when both answers are 200 and the events body
   * decodes; the instance id is then the instance body unchanged and the events
   * are the decoded ones, in their order.
   */
  lemma PollSucceeds(serve: string -> Response, decode: string -> Result<seq<MaintenanceEvent>, string>, baseURL: string)
    ensures var instance := serve(baseURL + InstanceIdPath);
            var events := serve(baseURL + ScheduledPath);
            (Poll(serve, decode, baseURL).Success? <==>
               instance.Reply? && instance.code == 200 && events.Reply? && events.code == 200
                   && decode(events.body).Success?)
    ensures var instance := serve(baseURL + InstanceIdPath);
            var events := serve(baseURL + ScheduledPath);
            (Poll(serve, decode, baseURL).Success? ==>
               Poll(serve, decode, baseURL).value == FetchedMetadata(instance.body, decode(events.body).value))
  {
  }

  /** Once the instance id was read, a failed events fetch or a body that does not decode fails the whole poll. */
  lemma EventsFailureFails(serve: string -> Response, decode: string -> Result<seq<MaintenanceEvent>, string>, baseURL: string)
    requires Classify(InstanceURL(baseURL), serve(InstanceURL(baseURL))).Success?
    ensures PollRequests(serve, baseURL) == [baseURL + InstanceIdPath, baseURL + ScheduledPath]
    ensures var events := Classify(EventsURL(baseURL), serve(EventsURL(baseURL)));
            events.Failure? ==> Poll(serve, decode, baseURL) == Failure(events.error)
    ensures var events := Classify(EventsURL(baseURL), serve(EventsURL(baseURL)));
            (events.Success? && decode(events.value).Failure? ==>
               Poll(serve, decode, baseURL) == Failure(Decode(decode(events.value).error)))
  {
  }

  /** A status error's message names the URL it came from, which can be read back from it. */
  lemma StatusErrorNamesURL(url: string, resp: Response)
    requires resp.Reply? && resp.code != 200 && '>' !in url
    ensures Classify(url, resp).Failure?
    ensures SplitHttpErrorText(ErrorText(Classify(url, resp).error)) == Some((url, resp.status))
  {
    HttpErrorTextRoundTrip(url, resp.code, resp.status);
  }
}
