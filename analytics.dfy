/** `updateAnalytics` (hooks/use-analytics.ts:87-140): the summary and the
    three other pieces of hook state computed from one batch of parsed
    events. */
module Analytics {
  import opened Wrappers
  import opened Records
  import opened Events
  import opened Sessions
  import opened Visitors
  import opened TopPages
  import opened Devices
  import opened CustomEvents
  import opened TimeSeries

  datatype SessionStats = SessionStats(total: nat, averageDuration: real)

  /** `AnalyticsSummary` of types/analytics.ts; the two divisions are exact. */
  datatype AnalyticsSummary = AnalyticsSummary(
    totalPageViews: nat,
    uniqueVisitors: nat,
    averageTimeOnPage: real,
    bounceRate: real,
    customEvents: seq<CustomEventStats>,
    clickEvents: seq<ParsedEvent>,
    formEvents: seq<ParsedEvent>,
    pageViews: seq<PageEntry>,
    sessions: SessionStats)

  /** Everything `updateAnalytics` sets: the `summary`, `topPages`,
      `deviceStats` and `pageViews` states of the hook. */
  datatype Analysis = Analysis(
    summary: AnalyticsSummary,
    topPages: seq<PageEntry>,
    deviceStats: seq<Entry<nat>>,
    pageViews: seq<TimeSeriesPoint>)

  /** The hook's initial state (hooks/use-analytics.ts:23-40). */
  const InitialSummary: AnalyticsSummary :=
    AnalyticsSummary(0, 0, 0.0, 0.0, [], [], [], [], SessionStats(0, 0.0))

  const InitialAnalysis: Analysis := Analysis(InitialSummary, [], [], [])

  /** The state `updateAnalytics` computes from the parsed batch `es`, given
      the list its `calculateSessionDurations` call returned. */
  function Summarize(es: seq<ParsedEvent>, dateKey: string -> string, sessionDurations: seq<nat>): Analysis {
    var pageViewEvents := OfKind(es, PageViewKind);
    var clickEvents := OfKind(es, ClickKind);
    var formEvents := OfKind(es, FormSubmitKind);
    var avgTime := Average(sessionDurations);
    var pageViews := AggregatePageViews(pageViewEvents);
    var summary := AnalyticsSummary(
      |pageViewEvents|, UniqueVisitors(es), avgTime, BounceRate(es),
      Values(ProcessCustomEvents(es)), clickEvents, formEvents, pageViews,
      SessionStats(|sessionDurations|, avgTime));
    Analysis(summary, pageViews, DeviceStats(es), GenerateTimeSeriesData(pageViewEvents, dateKey))
  }

  /** The state after `updateAnalytics` on the parsed batch `es`. */
  function Analyze(es: seq<ParsedEvent>, dateKey: string -> string): Analysis {
    Summarize(es, dateKey, SessionDurations(es))
  }

  /** The summary's counters in terms of the functions that compute them. */
  lemma SummaryFields(es: seq<ParsedEvent>, dateKey: string -> string)
    ensures var s := Analyze(es, dateKey).summary;
      && s.totalPageViews == |OfKind(es, PageViewKind)|
      && s.uniqueVisitors == UniqueVisitors(es)
      && s.bounceRate == BounceRate(es)
      && s.pageViews == AggregatePageViews(OfKind(es, PageViewKind))
      && s.sessions == SessionStats(|SessionDurations(es)|, Average(SessionDurations(es)))
  {
  }

  /** An empty batch would give back exactly the initial state. */
  lemma AnalyzeEmpty(dateKey: string -> string)
    ensures Analyze([], dateKey) == InitialAnalysis
  {
    assert Values<CustomEventStats>([]) == [];
    assert Tally([]) == [];
  }

  /** `totalPageViews` counts the events of kind exactly `pageview`, and the
      per-day series adds up to it. */
  lemma PageViewTotals(es: seq<ParsedEvent>, dateKey: string -> string)
    ensures Analyze(es, dateKey).summary.totalPageViews == multiset(MapSeq(KindOf, es))[PageViewKind]
    ensures SumPoints(Analyze(es, dateKey).pageViews) == Analyze(es, dateKey).summary.totalPageViews
  {
    OfKindCount(es, PageViewKind);
    TimeSeriesSpec(OfKind(es, PageViewKind), dateKey);
  }

  /** `sessions.total` is the number of durations pushed, at most one per
      page view; `averageTimeOnPage` and `sessions.averageDuration` are both
      their mean (`Average`: the sum divided by the count, or 0 when none
      was pushed). */
  lemma SummarySessions(es: seq<ParsedEvent>, dateKey: string -> string)
    ensures var s := Analyze(es, dateKey).summary;
      s.sessions.total == |SessionDurations(es)| &&
      s.sessions.total <= s.totalPageViews &&
      s.sessions.averageDuration == s.averageTimeOnPage &&
      s.averageTimeOnPage == Average(SessionDurations(es))
  {
    var sd := SessionDurations(es);
    var s := Analyze(es, dateKey).summary;
    SessionCount(es);
    OfKindCount(es, PageViewKind);
    assert s.totalPageViews == |OfKind(es, PageViewKind)|;
    assert s.sessions == SessionStats(|sd|, Average(sd));
    assert s.averageTimeOnPage == Average(sd);
  }

  /** The summary's page list is the `topPages` state, the device counts
      cover every event once and the bounce rate is a proportion. */
  lemma SummaryConsistent(es: seq<ParsedEvent>, dateKey: string -> string)
    ensures var a := Analyze(es, dateKey);
      a.summary.pageViews == a.topPages &&
      SumValues(a.deviceStats) == |es| &&
      0.0 <= a.summary.bounceRate <= 1.0
  {
    DeviceStatsSpec(es);
    BounceRateSpec(es);
  }

  lemma ReorderPageViews(es: seq<ParsedEvent>, fs: seq<ParsedEvent>)
    requires multiset(es) == multiset(fs)
    ensures |OfKind(es, PageViewKind)| == |OfKind(fs, PageViewKind)|
  {
    MapSeqPermutation(KindOf, es, fs);
    OfKindCount(es, PageViewKind);
    OfKindCount(fs, PageViewKind);
  }

  lemma ReorderVisitors(es: seq<ParsedEvent>, fs: seq<ParsedEvent>)
    requires multiset(es) == multiset(fs)
    ensures UniqueVisitors(es) == UniqueVisitors(fs)
    ensures BouncedVisitors(es) == BouncedVisitors(fs)
  {
    MapSeqPermutation(VisitorOf, es, fs);
    SameMultisetSameSet(VisitorIds(es), VisitorIds(fs));
    forall v ensures |EventsOf(es, v)| == |EventsOf(fs, v)| {
      EventsOfLength(es, v);
      EventsOfLength(fs, v);
    }
  }

  lemma ReorderBounce(es: seq<ParsedEvent>, fs: seq<ParsedEvent>)
    requires multiset(es) == multiset(fs)
    ensures BounceRate(es) == BounceRate(fs)
  {
    ReorderVisitors(es, fs);
    BounceRateSpec(es);
    BounceRateSpec(fs);
  }

  lemma ReorderDevices(es: seq<ParsedEvent>, fs: seq<ParsedEvent>, device: string)
    requires multiset(es) == multiset(fs)
    ensures Lookup(DeviceStats(es), device) == Lookup(DeviceStats(fs), device)
  {
    MapSeqPermutation(DeviceOf, es, fs);
    SameMultisetSameSet(MapSeq(DeviceOf, es), MapSeq(DeviceOf, fs));
    TallyLookup(MapSeq(DeviceOf, es), device);
    TallyLookup(MapSeq(DeviceOf, fs), device);
  }

  /** Counts are insensitive to the order of the batch: any reordering gives
      the same page-view total, visitor count, bounce rate and per-device
      counts. */
  lemma SummaryReorder(es: seq<ParsedEvent>, fs: seq<ParsedEvent>, dateKey: string -> string, device: string)
    requires multiset(es) == multiset(fs)
    ensures Analyze(es, dateKey).summary.totalPageViews == Analyze(fs, dateKey).summary.totalPageViews
    ensures Analyze(es, dateKey).summary.uniqueVisitors == Analyze(fs, dateKey).summary.uniqueVisitors
    ensures Analyze(es, dateKey).summary.bounceRate == Analyze(fs, dateKey).summary.bounceRate
    ensures Lookup(Analyze(es, dateKey).deviceStats, device) == Lookup(Analyze(fs, dateKey).deviceStats, device)
  {
    SummaryFields(es, dateKey);
    SummaryFields(fs, dateKey);
    ReorderPageViews(es, fs);
    ReorderVisitors(es, fs);
    ReorderBounce(es, fs);
    ReorderDevices(es, fs, device);
  }

  /** The analysis of a single event: one visitor, who bounced, a page
      view only if the event is one, and no pushed session. */
  lemma SingleEventSummary(e: ParsedEvent, dateKey: string -> string)
    ensures var s := Analyze([e], dateKey).summary;
      s.totalPageViews == (if e.event == PageViewKind then 1 else 0) &&
      s.uniqueVisitors == 1 && s.bounceRate == 1.0 && s.sessions.total == 0
  {
    SummaryFields([e], dateKey);
    SingleVisitor(e);
    SinglePageView(e);
    SingleNoSession(e);
  }

  lemma SingleVisitor(e: ParsedEvent)
    ensures UniqueVisitors([e]) == 1 && BounceRate([e]) == 1.0
  {
    assert [e][..0] == [];
    assert VisitorIds([e]) == [e.visitorId];
    assert (set v | v in VisitorIds([e])) == {e.visitorId};
    assert EventsOf([e], e.visitorId) == [e];
    AllBounces([e]);
  }

  lemma SinglePageView(e: ParsedEvent)
    ensures |OfKind([e], PageViewKind)| == if e.event == PageViewKind then 1 else 0
  {
    var none: seq<ParsedEvent> := [];
    assert none + [e] == [e];
    assert OfKind(none, PageViewKind) == [];
    OfKindAppend(none, e, PageViewKind);
  }

  lemma SingleNoSession(e: ParsedEvent)
    ensures |SessionDurations([e])| == 0
  {
    assert [e][..0] == [];
    assert PageviewIndices([e]) == [];
  }

  lemma SameMultisetSameSet(s: seq<string>, t: seq<string>)
    requires multiset(s) == multiset(t)
    ensures (set x | x in s) == (set x | x in t)
    ensures forall x :: x in s <==> x in t
  {
    forall x ensures x in s <==> x in t {
      assert x in s <==> x in multiset(s);
      assert x in t <==> x in multiset(t);
    }
  }

  /** A worked batch `[a, b, c]`: visitor "v1" views "/" and clicks, then
      visitor "v2" views "/about" (any timestamps, metadata and user
      agents). */
  predicate TwoVisitorsBatch(a: ParsedEvent, b: ParsedEvent, c: ParsedEvent) {
    && a.event == PageViewKind && a.visitorId == "v1" && a.page == Some("/")
    && b.event == ClickKind && b.visitorId == "v1"
    && c.event == PageViewKind && c.visitorId == "v2" && c.page == Some("/about")
  }

  lemma FirstVisitKinds(a: ParsedEvent, b: ParsedEvent)
    requires a.event == PageViewKind && b.event == ClickKind
    ensures OfKind([a, b], PageViewKind) == [a]
  {
    assert PageViewKind != ClickKind by { assert PageViewKind[0] != ClickKind[0]; }
    var none: seq<ParsedEvent> := [];
    assert none + [a] == [a] && [a] + [b] == [a, b];
    assert OfKind(none, PageViewKind) == [];
    OfKindAppend(none, a, PageViewKind);
    OfKindAppend([a], b, PageViewKind);
  }

  lemma TwoVisitorsKinds(a: ParsedEvent, b: ParsedEvent, c: ParsedEvent)
    requires TwoVisitorsBatch(a, b, c)
    ensures OfKind([a, b, c], PageViewKind) == [a, c]
  {
    FirstVisitKinds(a, b);
    assert [a, b] + [c] == [a, b, c];
    OfKindAppend([a, b], c, PageViewKind);
  }

  lemma TwoVisitorsIds(a: ParsedEvent, b: ParsedEvent, c: ParsedEvent)
    requires TwoVisitorsBatch(a, b, c)
    ensures VisitorIds([a, b, c]) == ["v1", "v1", "v2"]
  {
    var none: seq<ParsedEvent> := [];
    assert none + [a] == [a] && [a] + [b] == [a, b] && [a, b] + [c] == [a, b, c];
    MapSeqConcat(VisitorOf, none, [a]);
    MapSeqConcat(VisitorOf, [a], [b]);
    MapSeqConcat(VisitorOf, [a, b], [c]);
  }

  lemma TwoVisitorsUnique(a: ParsedEvent, b: ParsedEvent, c: ParsedEvent)
    requires TwoVisitorsBatch(a, b, c)
    ensures UniqueVisitors([a, b, c]) == 2
  {
    TwoVisitorsIds(a, b, c);
    assert "v1" != "v2" by { assert "v1"[1] != "v2"[1]; }
    assert (set v | v in ["v1", "v1", "v2"]) == {"v1", "v2"};
  }

  lemma TwoVisitorsBounced(a: ParsedEvent, b: ParsedEvent, c: ParsedEvent)
    requires TwoVisitorsBatch(a, b, c)
    ensures BouncedVisitors([a, b, c]) == {"v2"}
  {
    var es := [a, b, c];
    TwoVisitorsIds(a, b, c);
    assert "v1" != "v2" by { assert "v1"[1] != "v2"[1]; }
    EventsOfLength(es, "v1");
    EventsOfLength(es, "v2");
    assert multiset(["v1", "v1", "v2"]) == multiset{"v1", "v1", "v2"};
    assert |EventsOf(es, "v1")| == 2 && |EventsOf(es, "v2")| == 1;
    assert forall v :: v in VisitorIds(es) <==> v == "v1" || v == "v2";
  }

  lemma TwoVisitorsBounce(a: ParsedEvent, b: ParsedEvent, c: ParsedEvent)
    requires TwoVisitorsBatch(a, b, c)
    ensures UniqueVisitors([a, b, c]) == 2 && BounceRate([a, b, c]) == 0.5
  {
    TwoVisitorsUnique(a, b, c);
    TwoVisitorsBounced(a, b, c);
    BounceRateSpec([a, b, c]);
  }

  lemma TwoVisitorsTopPages(a: ParsedEvent, c: ParsedEvent)
    requires a.page == Some("/") && c.page == Some("/about")
    ensures AggregatePageViews([a, c]) == [PageEntry("/", 1), PageEntry("/about", 1)]
  {
    var pvs := [a, c];
    assert "/" != "/about" by { assert |"/"| != |"/about"|; }
    assert pvs[..1] == [a] && [a][..0] == [];
    assert PageKeys(pvs) == ["/", "/about"];
    assert ["/", "/about"][..1] == ["/"] && ["/"][..0] == [];
    assert Tally(["/"]) == [Entry("/", 1)];
    assert Lookup([Entry("/", 1)], "/about") == None;
    assert Tally(["/", "/about"]) == Put([Entry("/", 1)], "/about", 1);
    assert Tally(["/", "/about"]) == [Entry("/", 1), Entry("/about", 1)];
    var entries := [PageEntry("/", 1), PageEntry("/about", 1)];
    assert PageEntries(pvs) == entries;
    assert entries[..1] == [PageEntry("/", 1)];
    assert SortByViews(entries) == entries;
  }

  lemma TwoVisitorsSessions(a: ParsedEvent, b: ParsedEvent, c: ParsedEvent)
    requires TwoVisitorsBatch(a, b, c)
    ensures SessionDurations([a, b, c]) == [1]
  {
    var es := [a, b, c];
    assert PageViewKind != ClickKind by { assert PageViewKind[0] != ClickKind[0]; }
    assert es[..2] == [a, b] && [a, b][..1] == [a] && [a][..0] == [];
    assert PageviewIndices([a]) == [];
    assert PageviewIndices([a, b]) == [];
    assert PageviewIndices(es) == [2];
    assert ClicksBetween(es, 0, 1) == 0;
    assert ClicksBetween(es, 0, 2) == 1;
  }

  /** The worked batch gives two page views, two visitors, a bounce rate of
      one half (the second visitor left after one event), the two pages with
      one view each in order of first view, and one pushed session of one
      click. */
  lemma ScenarioTwoVisitors(es: seq<ParsedEvent>, dateKey: string -> string)
    requires |es| == 3 && TwoVisitorsBatch(es[0], es[1], es[2])
    ensures var s := Analyze(es, dateKey).summary;
      s.totalPageViews == 2 && s.uniqueVisitors == 2 && s.bounceRate == 0.5 &&
      s.pageViews == [PageEntry("/", 1), PageEntry("/about", 1)] &&
      s.sessions == SessionStats(1, 1.0)
  {
    var a, b, c := es[0], es[1], es[2];
    assert es == [a, b, c];
    SummaryFields(es, dateKey);
    TwoVisitorsKinds(a, b, c);
    TwoVisitorsBounce(a, b, c);
    TwoVisitorsTopPages(a, c);
    TwoVisitorsSessions(a, b, c);
    AverageOne();
  }

  lemma AverageOne()
    ensures Average([1]) == 1.0
  {
    var s: seq<nat> := [1];
    AverageSpec(s);
    assert |s| as real == 1.0;
    assert Sum(s) == 1;
  }
}
