/** `processCustomEvents` (hooks/use-analytics.ts:142-162): custom events
    grouped by name with their count and the metadata of each occurrence. */
module CustomEvents {
  import opened Wrappers
  import opened Records
  import opened Events

  const CustomPrefix: string := "custom:"

  datatype CustomEventStats = CustomEventStats(name: string, count: nat, metadata: seq<Metadata>)

  /** `e.event.startsWith("custom:")` */
  predicate IsCustom(e: ParsedEvent) {
    CustomPrefix <= e.event
  }

  /** `s.replace(t, "")`: the first occurrence of `t` removed. */
  function RemoveFirst(s: string, t: string): string
    decreases |s|
  {
    if t <= s then s[|t|..]
    else if s == [] then s
    else [s[0]] + RemoveFirst(s[1..], t)
  }

  /** `event.event.replace("custom:", "")`. */
  function EventName(e: ParsedEvent): string {
    RemoveFirst(e.event, CustomPrefix)
  }

  /** On a custom event the name is what follows the prefix. */
  lemma EventNameSpec(e: ParsedEvent)
    requires IsCustom(e)
    ensures CustomPrefix + EventName(e) == e.event
  {
  }

  /** `events.filter(e => e.event.startsWith("custom:"))` */
  function CustomEventsOf(es: seq<ParsedEvent>): (cs: seq<ParsedEvent>)
    ensures forall e :: e in cs <==> e in es && IsCustom(e)
  {
    if es == [] then []
    else
      var n := |es| - 1;
      assert es == es[..n] + [es[n]];
      CustomEventsOf(es[..n]) + if IsCustom(es[n]) then [es[n]] else []
  }

  /** One step of the `reduce`: create `{name, count: 0, metadata: []}` if the
      name is new, then count the event and push its metadata. */
  function CustomStep(acc: seq<Entry<CustomEventStats>>, e: ParsedEvent): seq<Entry<CustomEventStats>> {
    var name := EventName(e);
    var stats := Lookup(acc, name).GetOr(CustomEventStats(name, 0, []));
    Put(acc, name, CustomEventStats(name, stats.count + 1, stats.metadata + [e.metadata]))
  }

  /** The `reduce` over already filtered events. */
  function GroupByName(cs: seq<ParsedEvent>): seq<Entry<CustomEventStats>> {
    if cs == [] then [] else CustomStep(GroupByName(cs[..|cs| - 1]), cs[|cs| - 1])
  }

  /** `processCustomEvents(events)`, the dictionary keyed by name. */
  function ProcessCustomEvents(es: seq<ParsedEvent>): seq<Entry<CustomEventStats>> {
    GroupByName(CustomEventsOf(es))
  }

  function Names(cs: seq<ParsedEvent>): seq<string> {
    MapSeq(EventName, cs)
  }

  /** Reference definition: the metadata of the events named `name`, in
      arrival order. */
  function MetadataNamed(cs: seq<ParsedEvent>, name: string): seq<Metadata> {
    if cs == [] then []
    else
      var n := |cs| - 1;
      MetadataNamed(cs[..n], name) + if EventName(cs[n]) == name then [cs[n].metadata] else []
  }

  /** A name has as many metadata entries as events. */
  lemma {:induction false} MetadataNamedLength(cs: seq<ParsedEvent>, name: string)
    ensures |MetadataNamed(cs, name)| == multiset(Names(cs))[name]
  {
    if cs != [] {
      var n := |cs| - 1;
      MetadataNamedLength(cs[..n], name);
      assert Names(cs) == Names(cs[..n]) + [EventName(cs[n])];
    }
  }

  /** One step adds the event's name at the end unless it is already a key. */
  lemma CustomStepKeys(acc: seq<Entry<CustomEventStats>>, e: ParsedEvent)
    ensures Keys(CustomStep(acc, e)) ==
      if EventName(e) in Keys(acc) then Keys(acc) else Keys(acc) + [EventName(e)]
  {
    var name := EventName(e);
    var stats := Lookup(acc, name).GetOr(CustomEventStats(name, 0, []));
    PutKeys(acc, name, CustomEventStats(name, stats.count + 1, stats.metadata + [e.metadata]));
  }

  /** One step updates only the entry of the event's name. */
  lemma CustomStepLookup(acc: seq<Entry<CustomEventStats>>, e: ParsedEvent, name: string)
    ensures Lookup(CustomStep(acc, e), name) ==
      if name == EventName(e) then
        var stats := Lookup(acc, name).GetOr(CustomEventStats(name, 0, []));
        Some(CustomEventStats(name, stats.count + 1, stats.metadata + [e.metadata]))
      else Lookup(acc, name)
  {
    var k := EventName(e);
    var stats := Lookup(acc, k).GetOr(CustomEventStats(k, 0, []));
    PutLookup(acc, k, CustomEventStats(k, stats.count + 1, stats.metadata + [e.metadata]), name);
  }

  lemma NamesAppend(cs: seq<ParsedEvent>, e: ParsedEvent)
    ensures Names(cs + [e]) == Names(cs) + [EventName(e)]
  {
    assert (cs + [e])[..|cs|] == cs;
  }

  /** Names appear in the order of their first event. */
  lemma {:induction false} GroupByNameKeys(cs: seq<ParsedEvent>)
    ensures Keys(GroupByName(cs)) == FirstOccurrences(Names(cs))
  {
    if cs != [] {
      var n := |cs| - 1;
      var s, e := cs[..n], cs[n];
      assert cs == s + [e];
      GroupByNameKeys(s);
      CustomStepKeys(GroupByName(s), e);
      NamesAppend(s, e);
      assert Names(cs)[..n] == Names(s);
    }
  }

  /** Reference definition of a name's entry: its events' count and
      metadata, or nothing when the name never occurred. */
  function NamedStats(cs: seq<ParsedEvent>, name: string): Option<CustomEventStats> {
    if name in Names(cs) then
      Some(CustomEventStats(name, |MetadataNamed(cs, name)|, MetadataNamed(cs, name)))
    else None
  }

  lemma NamedStatsStep(cs: seq<ParsedEvent>, e: ParsedEvent, name: string)
    ensures name !in Names(cs) ==> MetadataNamed(cs, name) == []
    ensures NamedStats(cs + [e], name) ==
      if name == EventName(e) then
        Some(CustomEventStats(name, |MetadataNamed(cs, name)| + 1, MetadataNamed(cs, name) + [e.metadata]))
      else NamedStats(cs, name)
  {
    NamesAppend(cs, e);
    MetadataNamedLength(cs, name);
    assert (cs + [e])[..|cs|] == cs;
    if name == EventName(e) {
      assert name in Names(cs + [e]);
      assert MetadataNamed(cs + [e], name) == MetadataNamed(cs, name) + [e.metadata];
    } else {
      assert name in Names(cs + [e]) <==> name in Names(cs);
      assert MetadataNamed(cs + [e], name) == MetadataNamed(cs, name);
    }
  }

  /** The entry of a name counts its events and holds their metadata in
      arrival order; there is no entry for a name that never occurred. */
  lemma {:induction false} GroupByNameLookup(cs: seq<ParsedEvent>, name: string)
    ensures Lookup(GroupByName(cs), name) == NamedStats(cs, name)
  {
    if cs != [] {
      var n := |cs| - 1;
      var s, e := cs[..n], cs[n];
      assert cs == s + [e];
      GroupByNameLookup(s, name);
      CustomStepLookup(GroupByName(s), e, name);
      NamedStatsStep(s, e, name);
    }
  }

  /** `Object.values(processCustomEvents(events))`, the summary's list: one
      entry per distinct custom event name, in order of first occurrence,
      counting that name's events and holding their metadata in arrival
      order. */
  lemma CustomEventsSpec(es: seq<ParsedEvent>)
    ensures var cs := CustomEventsOf(es);
      var stats := Values(ProcessCustomEvents(es));
      |stats| == |FirstOccurrences(Names(cs))| &&
      Distinct(FirstOccurrences(Names(cs))) &&
      forall i :: 0 <= i < |stats| ==>
        stats[i].name == FirstOccurrences(Names(cs))[i] &&
        stats[i].metadata == MetadataNamed(cs, stats[i].name) &&
        stats[i].count == |stats[i].metadata| == multiset(Names(cs))[stats[i].name] >= 1
  {
    var cs := CustomEventsOf(es);
    var g := GroupByName(cs);
    var ks := FirstOccurrences(Names(cs));
    GroupByNameKeys(cs);
    FirstOccurrencesDistinct(Names(cs));
    KeysLength(g);
    ValuesLength(g);
    forall i | 0 <= i < |g|
      ensures Values(g)[i].name == ks[i]
      ensures Values(g)[i].metadata == MetadataNamed(cs, Values(g)[i].name)
      ensures Values(g)[i].count == |Values(g)[i].metadata| == multiset(Names(cs))[Values(g)[i].name] >= 1
    {
      LookupAt(g, i);
      GroupByNameLookup(cs, g[i].key);
      MetadataNamedLength(cs, g[i].key);
    }
  }

  /** Only custom events are counted: other events leave the list as it is. */
  lemma CustomEventsIgnoreOthers(es: seq<ParsedEvent>, e: ParsedEvent)
    requires !IsCustom(e)
    ensures ProcessCustomEvents(es + [e]) == ProcessCustomEvents(es)
  {
    assert (es + [e])[..|es|] == es;
    assert CustomEventsOf(es + [e]) == CustomEventsOf(es);
  }

  /** A worked batch: two `custom:signup` events with metadata
      `{plan: "pro"}`. */
  const ProPlan: Metadata := map["plan" := "\"pro\""]

  predicate IsProSignup(e: ParsedEvent) {
    e.event == "custom:signup" && e.metadata == ProPlan
  }

  lemma SignupName(e: ParsedEvent)
    requires IsProSignup(e)
    ensures IsCustom(e) && EventName(e) == "signup"
  {
    assert CustomPrefix <= e.event;
    assert e.event[|CustomPrefix|..] == "signup";
  }

  lemma SignupsKept(a: ParsedEvent, b: ParsedEvent)
    requires IsProSignup(a) && IsProSignup(b)
    ensures CustomEventsOf([a, b]) == [a, b]
  {
    SignupName(a);
    SignupName(b);
    assert [a, b][..1] == [a] && [a][..0] == [];
    assert CustomEventsOf([a][..0]) == [];
    assert CustomEventsOf([a]) == [a];
  }

  /** The two signups make one entry named "signup" counting two events and
      holding both metadata mappings. */
  lemma ScenarioSignups(a: ParsedEvent, b: ParsedEvent)
    requires IsProSignup(a) && IsProSignup(b)
    ensures Values(ProcessCustomEvents([a, b])) == [CustomEventStats("signup", 2, [ProPlan, ProPlan])]
  {
    SignupsKept(a, b);
    SignupName(a);
    SignupName(b);
    var none: seq<Entry<CustomEventStats>> := [];
    var one := [Entry("signup", CustomEventStats("signup", 1, [ProPlan]))];
    assert [a, b][..1] == [a] && [a][..0] == [];
    assert GroupByName([a]) == CustomStep(none, a);
    var first := CustomEventStats("signup", 1, [ProPlan]);
    assert Lookup(none, "signup") == None;
    assert [] + [a.metadata] == [ProPlan];
    assert CustomStep(none, a) == Put(none, "signup", first);
    assert CustomStep(none, a) == one;
    assert GroupByName([a, b]) == CustomStep(one, b);
    var second := CustomEventStats("signup", 2, [ProPlan, ProPlan]);
    assert Lookup(one, "signup") == Some(first);
    assert first.metadata + [b.metadata] == [ProPlan, ProPlan];
    assert CustomStep(one, b) == Put(one, "signup", second);
    assert Put(one, "signup", second) == [Entry("signup", second)];
    assert Values([Entry("signup", second)]) == [second];
  }
}
