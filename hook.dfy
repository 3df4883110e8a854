/** The state held by `useAnalytics` (hooks/use-analytics.ts:22-85) and the
    two ways it changes: the batch load and the live notification. */
module AnalyticsHook {
  import opened Wrappers
  import opened Records
  import opened Events
  import opened Sessions
  import opened Visitors
  import opened TopPages
  import opened TimeSeries
  import opened Analytics

  /** The realtime event name a document creation is tagged with. */
  const CreateEventPattern: string := "databases.*.collections.*.documents.create"

  /** A realtime message: the event names it carries and its payload. */
  datatype Notification = Notification(events: seq<string>, payload: StoredEvent)

  /** The state after `updateAnalytics(events)` from state `prev`: a batch
      whose metadata does not parse throws before any state is set;
      otherwise the state is recomputed from `events` alone. */
  function AfterUpdate(prev: Analysis, events: seq<StoredEvent>, parse: string -> Option<Metadata>,
                       dateKey: string -> string): Analysis {
    match ParseEvents(events, parse)
    case None => prev
    case Some(parsedEvents) => Analyze(parsedEvents, dateKey)
  }

  /** The state after `loadAnalytics` receives `response` (None: the query
      failed and the error is caught): only a non-empty batch is analysed. */
  function AfterLoad(prev: Analysis, response: Option<seq<StoredEvent>>, parse: string -> Option<Metadata>,
                     dateKey: string -> string): Analysis {
    match response
    case None => prev
    case Some(events) => if |events| > 0 then AfterUpdate(prev, events, parse, dateKey) else prev
  }

  /** The subscription callback's two guards. */
  predicate Accepts(n: Notification, trackingId: string) {
    CreateEventPattern in n.events && n.payload.trackingId == trackingId
  }

  /** The state after the subscription callback handles `n`. */
  function AfterNotification(prev: Analysis, n: Notification, trackingId: string,
                             parse: string -> Option<Metadata>, dateKey: string -> string): Analysis {
    if Accepts(n, trackingId) then AfterUpdate(prev, [n.payload], parse, dateKey) else prev
  }

  /** A load changes the state only when the query answered with a non-empty
      batch whose metadata all parses, and the new state is then that
      batch's analysis whatever the state was before. */
  lemma LoadSpec(prev: Analysis, response: Option<seq<StoredEvent>>, parse: string -> Option<Metadata>,
                 dateKey: string -> string)
    ensures AfterLoad(prev, response, parse, dateKey) == prev ||
      (response.Some? && |response.value| > 0 && ParseEvents(response.value, parse).Some? &&
       AfterLoad(prev, response, parse, dateKey) == Analyze(ParseEvents(response.value, parse).value, dateKey))
    ensures response == Some([]) ==> AfterLoad(prev, response, parse, dateKey) == prev
  {
  }

  /** An empty batch leaves the initial state as it is, which is also what
      analysing it would give. */
  lemma InitialEmptyLoad(parse: string -> Option<Metadata>, dateKey: string -> string)
    ensures AfterLoad(InitialAnalysis, Some([]), parse, dateKey) == InitialAnalysis
    ensures AfterUpdate(InitialAnalysis, [], parse, dateKey) == InitialAnalysis
  {
    AnalyzeEmpty(dateKey);
  }

  /** A notification for another tracking id, or one that is not a document
      creation, leaves the state unchanged. */
  lemma NotificationIgnored(prev: Analysis, n: Notification, trackingId: string,
                            parse: string -> Option<Metadata>, dateKey: string -> string)
    requires !Accepts(n, trackingId)
    ensures AfterNotification(prev, n, trackingId, parse, dateKey) == prev
  {
  }

  /** There is no incremental fold: an accepted event whose metadata parses
      replaces the state by the analysis of that one event, so the summary
      then counts a single visitor who bounced, at most one page view and no
      pushed session, whatever was summarised before. */
  lemma NotificationReplaces(prev: Analysis, n: Notification, trackingId: string,
                             parse: string -> Option<Metadata>, dateKey: string -> string)
    requires Accepts(n, trackingId)
    requires ParseEvent(n.payload, parse).Some?
    ensures var e := ParseEvent(n.payload, parse).value;
      var s := AfterNotification(prev, n, trackingId, parse, dateKey).summary;
      AfterNotification(prev, n, trackingId, parse, dateKey) == Analyze([e], dateKey) &&
      s.totalPageViews == (if n.payload.event == PageViewKind then 1 else 0) &&
      s.uniqueVisitors == 1 && s.bounceRate == 1.0 && s.sessions.total == 0
  {
    var e := ParseEvent(n.payload, parse).value;
    ParseSingle(n.payload, parse);
    SingleEventSummary(e, dateKey);
  }

  lemma ParseSingle(x: StoredEvent, parse: string -> Option<Metadata>)
    requires ParseEvent(x, parse).Some?
    ensures ParseEvents([x], parse) == Some([ParseEvent(x, parse).value])
  {
    var none: seq<ParsedEvent> := [];
    assert [x][..0] == [];
    assert ParseEvents([x][..0], parse) == Some(none);
    assert none + [ParseEvent(x, parse).value] == [ParseEvent(x, parse).value];
  }

  /** The hook instance for one tracking id.  `parse` stands for `JSON.parse`
      (None: it throws) and `dateKey` for `toLocaleDateString`. */
  class UseAnalytics {
    const trackingId: string
    const parse: string -> Option<Metadata>
    const dateKey: string -> string
    var summary: AnalyticsSummary
    var pageViews: seq<TimeSeriesPoint>
    var topPages: seq<PageEntry>
    var deviceStats: seq<Entry<nat>>
    var loading: bool

    /** What `updateAnalytics` sets. */
    function State(): Analysis
      reads this
    {
      Analysis(summary, topPages, deviceStats, pageViews)
    }

    /** The states `useState` starts from (hooks/use-analytics.ts:23-41). */
    constructor(trackingId: string, parse: string -> Option<Metadata>, dateKey: string -> string)
      ensures this.trackingId == trackingId && this.parse == parse && this.dateKey == dateKey
      ensures State() == InitialAnalysis && loading
    {
      this.trackingId := trackingId;
      this.parse := parse;
      this.dateKey := dateKey;
      summary := InitialSummary;
      pageViews := [];
      topPages := [];
      deviceStats := [];
      loading := true;
    }

    /** `updateAnalytics(events)` */
    method UpdateAnalytics(events: seq<StoredEvent>)
      modifies this
      ensures State() == AfterUpdate(old(State()), events, parse, dateKey)
      ensures loading == old(loading)
    {
      var parsed := ParseEvents(events, parse);
      if parsed.None? {
        return;
      }
      var parsedEvents := parsed.value;
      var sessionDurations := CalculateSessionDurations(parsedEvents);
      var next := Summarize(parsedEvents, dateKey, sessionDurations);
      assert next == AfterUpdate(State(), events, parse, dateKey);
      SetState(next);
    }

    /** The four `set...` calls of `updateAnalytics`. */
    method SetState(next: Analysis)
      modifies this
      ensures State() == next
      ensures loading == old(loading)
    {
      summary := next.summary;
      topPages := next.topPages;
      deviceStats := next.deviceStats;
      pageViews := next.pageViews;
    }

    /** `loadAnalytics()` once the query has answered with `response`; the
        `finally` clause always clears `loading`. */
    method LoadAnalytics(response: Option<seq<StoredEvent>>)
      modifies this
      ensures State() == AfterLoad(old(State()), response, parse, dateKey)
      ensures !loading
    {
      if response.Some? {
        var events := response.value;
        if |events| > 0 {
          UpdateAnalytics(events);
        }
      }
      loading := false;
    }

    /** The subscription callback of `subscribeToEvents`. */
    method OnNotification(n: Notification)
      modifies this
      ensures State() == AfterNotification(old(State()), n, trackingId, parse, dateKey)
      ensures loading == old(loading)
    {
      if CreateEventPattern in n.events {
        var newEvent := n.payload;
        if newEvent.trackingId == trackingId {
          UpdateAnalytics([newEvent]);
        }
      }
    }
  }
}
