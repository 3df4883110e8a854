/** The event record of types/event.ts and the metadata parsing step that
    starts `updateAnalytics` (hooks/use-analytics.ts:88-91). */
module Events {
  import opened Wrappers
  import opened Records

  /** Parsed metadata: each property name with its value's JSON text. */
  type Metadata = map<string, string>

  /** One stored event document; `M` is the metadata's representation,
      the serialized string as stored or the parsed mapping.  Storage-owned
      fields (`$id`, `$createdAt`, ...) are not part of the model. */
  datatype Event<M> = Event(
    trackingId: string,
    event: string,
    metadata: M,
    timestamp: string,
    visitorId: string,
    userAgent: string,
    language: string,
    screenSize: string,
    page: Option<string>)

  type StoredEvent = Event<string>
  type ParsedEvent = Event<Metadata>

  const PageViewKind: string := "pageview"
  const ClickKind: string := "click"
  const FormSubmitKind: string := "form_submit"

  /** `event.metadata ? JSON.parse(event.metadata) : {}`, with `parse`
      standing for `JSON.parse` and None for a parse that throws. */
  function ParseMetadata(raw: string, parse: string -> Option<Metadata>): Option<Metadata> {
    if raw == "" then Some(map[]) else parse(raw)
  }

  /** `{...event, metadata: <parsed>}` */
  function ParseEvent(e: StoredEvent, parse: string -> Option<Metadata>): Option<ParsedEvent> {
    match ParseMetadata(e.metadata, parse)
    case None => None
    case Some(m) =>
      Some(Event(e.trackingId, e.event, m, e.timestamp, e.visitorId,
                 e.userAgent, e.language, e.screenSize, e.page))
  }

  /** `events.map(...)` with the parse above: one throw aborts the whole map. */
  function ParseEvents(es: seq<StoredEvent>, parse: string -> Option<Metadata>): Option<seq<ParsedEvent>> {
    if es == [] then Some([])
    else
      match ParseEvents(es[..|es| - 1], parse)
      case None => None
      case Some(ps) =>
        match ParseEvent(es[|es| - 1], parse)
        case None => None
        case Some(p) => Some(ps + [p])
  }

  /** Everything but the metadata is carried over unchanged. */
  predicate SameFields(s: StoredEvent, p: ParsedEvent) {
    s.trackingId == p.trackingId && s.event == p.event && s.timestamp == p.timestamp &&
    s.visitorId == p.visitorId && s.userAgent == p.userAgent && s.language == p.language &&
    s.screenSize == p.screenSize && s.page == p.page
  }

  /** Parsing succeeds exactly when every event's metadata is absent or
      parses; it then keeps the events, their order and all other fields,
      and gives an absent metadata string the empty mapping. */
  lemma {:induction false} ParseEventsSpec(es: seq<StoredEvent>, parse: string -> Option<Metadata>)
    ensures ParseEvents(es, parse).Some? <==>
      forall i :: 0 <= i < |es| ==> ParseMetadata(es[i].metadata, parse).Some?
    ensures ParseEvents(es, parse).Some? ==>
      var ps := ParseEvents(es, parse).value;
      |ps| == |es| &&
      forall i :: 0 <= i < |es| ==>
        SameFields(es[i], ps[i]) && Some(ps[i].metadata) == ParseMetadata(es[i].metadata, parse) &&
        (es[i].metadata == "" ==> ps[i].metadata == map[])
  {
    if es != [] {
      var n := |es| - 1;
      ParseEventsSpec(es[..n], parse);
      if ParseEvents(es[..n], parse).None? {
        assert !ParseMetadata(es[..n][FailingIndex(es[..n], parse)].metadata, parse).Some?;
      }
    }
  }

  /** Some event whose metadata does not parse, when the whole batch fails. */
  function FailingIndex(es: seq<StoredEvent>, parse: string -> Option<Metadata>): (i: nat)
    requires ParseEvents(es, parse).None?
    ensures i < |es| && ParseMetadata(es[i].metadata, parse).None?
  {
    var n := |es| - 1;
    if ParseEvents(es[..n], parse).None? then FailingIndex(es[..n], parse) else n
  }

  function KindOf(e: ParsedEvent): string { e.event }

  /** `events.filter(e => e.event === kind)` */
  function OfKind(es: seq<ParsedEvent>, kind: string): (r: seq<ParsedEvent>)
    ensures forall e :: e in r <==> e in es && e.event == kind
  {
    if es == [] then []
    else
      var n := |es| - 1;
      assert es == es[..n] + [es[n]];
      OfKind(es[..n], kind) + if es[n].event == kind then [es[n]] else []
  }

  /** The filter keeps as many events as the kind occurs in the batch. */
  lemma {:induction false} OfKindCount(es: seq<ParsedEvent>, kind: string)
    ensures |OfKind(es, kind)| == multiset(MapSeq(KindOf, es))[kind]
  {
    if es != [] {
      var n := |es| - 1;
      var s, e := es[..n], es[n];
      assert es == s + [e];
      OfKindCount(s, kind);
      OfKindAppend(s, e, kind);
      var m := MapSeq(KindOf, s);
      assert MapSeq(KindOf, s + [e]) == m + [e.event] by {
        assert (s + [e])[..|s|] == s;
      }
      assert multiset(m + [e.event]) == multiset(m) + multiset{e.event};
    }
  }

  /** One event more: kept exactly when it has the kind. */
  lemma OfKindAppend(s: seq<ParsedEvent>, e: ParsedEvent, kind: string)
    ensures OfKind(s + [e], kind) == OfKind(s, kind) + if e.event == kind then [e] else []
  {
    assert (s + [e])[..|s|] == s;
  }
}
