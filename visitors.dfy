/** Unique visitors (hooks/use-analytics.ts:101-102) and `calculateBounceRate`
    (hooks/use-analytics.ts:184-199). */
module Visitors {
  import opened Wrappers
  import opened Records
  import opened Events

  function VisitorOf(e: ParsedEvent): string { e.visitorId }

  /** `events.map(e => e.visitorId)` */
  function VisitorIds(es: seq<ParsedEvent>): seq<string> {
    MapSeq(VisitorOf, es)
  }

  /** `new Set(events.map(e => e.visitorId)).size` */
  function UniqueVisitors(es: seq<ParsedEvent>): nat {
    |set v | v in VisitorIds(es)|
  }

  /** Reference definition: the events of visitor `v`, in arrival order. */
  function EventsOf(es: seq<ParsedEvent>, v: string): seq<ParsedEvent> {
    if es == [] then []
    else EventsOf(es[..|es| - 1], v) + if es[|es| - 1].visitorId == v then [es[|es| - 1]] else []
  }

  /** `if (!acc[id]) acc[id] = []; acc[id].push(event)` */
  function GroupStep(acc: seq<Entry<seq<ParsedEvent>>>, e: ParsedEvent): seq<Entry<seq<ParsedEvent>>> {
    Put(acc, e.visitorId, Lookup(acc, e.visitorId).GetOr([]) + [e])
  }

  /** The `sessions` dictionary of `calculateBounceRate`: events grouped by visitor. */
  function GroupByVisitor(es: seq<ParsedEvent>): seq<Entry<seq<ParsedEvent>>> {
    if es == [] then [] else GroupStep(GroupByVisitor(es[..|es| - 1]), es[|es| - 1])
  }

  /** `.filter(s => s.length === 1).length` */
  function CountSingletons(groups: seq<seq<ParsedEvent>>): nat {
    if groups == [] then 0
    else CountSingletons(groups[..|groups| - 1]) + if |groups[|groups| - 1]| == 1 then 1 else 0
  }

  /** `totalSessions ? bouncedSessions / totalSessions : 0`, in exact arithmetic. */
  function BounceRate(es: seq<ParsedEvent>): real {
    var sessions := GroupByVisitor(es);
    var totalSessions := |Keys(sessions)|;
    var bouncedSessions := CountSingletons(Values(sessions));
    if totalSessions == 0 then 0.0 else bouncedSessions as real / totalSessions as real
  }

  /** Reference definition: the visitors with exactly one event. */
  function BouncedVisitors(es: seq<ParsedEvent>): set<string> {
    set v | v in VisitorIds(es) && |EventsOf(es, v)| == 1
  }

  /** A new event of a visitor already seen leaves the count unchanged; one
      of a new visitor raises it by one. */
  lemma UniqueVisitorsAppend(es: seq<ParsedEvent>, e: ParsedEvent)
    ensures UniqueVisitors(es + [e]) ==
      UniqueVisitors(es) + if e.visitorId in VisitorIds(es) then 0 else 1
  {
    assert VisitorIds(es + [e]) == VisitorIds(es) + [e.visitorId] by {
      assert (es + [e])[..|es|] == es;
    }
    var before, after := set v | v in VisitorIds(es), set v | v in VisitorIds(es + [e]);
    assert after == before + {e.visitorId};
    assert e.visitorId in before <==> e.visitorId in VisitorIds(es);
    if e.visitorId in before {
      assert after == before;
    } else {
      assert |after| == |before| + 1;
    }
  }

  /** A visitor has as many events as their id occurs. */
  lemma {:induction false} EventsOfLength(es: seq<ParsedEvent>, v: string)
    ensures |EventsOf(es, v)| == multiset(VisitorIds(es))[v]
  {
    if es != [] {
      var n := |es| - 1;
      EventsOfLength(es[..n], v);
      assert VisitorIds(es) == VisitorIds(es[..n]) + [es[n].visitorId];
    }
  }

  /** Groups are keyed by visitor, in order of each visitor's first event. */
  lemma {:induction false} GroupKeys(es: seq<ParsedEvent>)
    ensures Keys(GroupByVisitor(es)) == FirstOccurrences(VisitorIds(es))
  {
    if es != [] {
      var n := |es| - 1;
      var g := GroupByVisitor(es[..n]);
      var e := es[n];
      GroupKeys(es[..n]);
      PutKeys(g, e.visitorId, Lookup(g, e.visitorId).GetOr([]) + [e]);
      assert VisitorIds(es) == VisitorIds(es[..n]) + [e.visitorId];
    }
  }

  /** The group of a visitor holds exactly that visitor's events, in arrival
      order; there is no group for a visitor without events. */
  lemma {:induction false} GroupLookup(es: seq<ParsedEvent>, v: string)
    ensures Lookup(GroupByVisitor(es), v) ==
      if v in VisitorIds(es) then Some(EventsOf(es, v)) else None
  {
    if es != [] {
      var n := |es| - 1;
      var g := GroupByVisitor(es[..n]);
      var e := es[n];
      assert VisitorIds(es) == VisitorIds(es[..n]) + [e.visitorId];
      GroupLookup(es[..n], v);
      GroupLookup(es[..n], e.visitorId);
      EventsOfLength(es[..n], e.visitorId);
      PutLookup(g, e.visitorId, Lookup(g, e.visitorId).GetOr([]) + [e], v);
      if v == e.visitorId {
        if v !in VisitorIds(es[..n]) {
          assert EventsOf(es[..n], v) == [];
        }
        assert EventsOf(es, v) == EventsOf(es[..n], v) + [e];
      } else {
        assert EventsOf(es, v) == EventsOf(es[..n], v);
      }
    }
  }

  /** Number of keys in `ks` that occur exactly once in `ids`. */
  function CountOnce(ks: seq<string>, ids: seq<string>): nat {
    if ks == [] then 0
    else CountOnce(ks[..|ks| - 1], ids) + if multiset(ids)[ks[|ks| - 1]] == 1 then 1 else 0
  }

  lemma {:induction false} CountOnceCard(ks: seq<string>, ids: seq<string>)
    requires Distinct(ks)
    ensures CountOnce(ks, ids) == |set k | k in ks && multiset(ids)[k] == 1|
  {
    if ks != [] {
      var n := |ks| - 1;
      assert ks == ks[..n] + [ks[n]];
      assert ks[n] !in ks[..n];
      CountOnceCard(ks[..n], ids);
      var x := ks[n];
      var tail := set k | k in ks[..n] && multiset(ids)[k] == 1;
      var all := set k | k in ks && multiset(ids)[k] == 1;
      assert x !in tail;
      if multiset(ids)[x] == 1 {
        assert all == tail + {x};
        assert |all| == |tail| + 1;
      } else {
        assert all == tail;
      }
    }
  }

  lemma {:induction false} CountSingletonsOnce(gs: seq<seq<ParsedEvent>>, ks: seq<string>, ids: seq<string>)
    requires |gs| == |ks|
    requires forall i :: 0 <= i < |gs| ==> |gs[i]| == multiset(ids)[ks[i]]
    ensures CountSingletons(gs) == CountOnce(ks, ids)
  {
    if gs != [] {
      var n := |gs| - 1;
      CountSingletonsOnce(gs[..n], ks[..n], ids);
    }
  }

  /** There is one group per distinct visitor. */
  lemma GroupCount(es: seq<ParsedEvent>)
    ensures |Keys(GroupByVisitor(es))| == UniqueVisitors(es)
  {
    var ids := VisitorIds(es);
    GroupKeys(es);
    FirstOccurrencesDistinct(ids);
    DistinctCard(FirstOccurrences(ids));
    assert (set x | x in FirstOccurrences(ids)) == (set x | x in ids);
  }

  /** The number of one-event groups is the number of bounced visitors. */
  lemma BouncedCount(es: seq<ParsedEvent>)
    ensures CountSingletons(Values(GroupByVisitor(es))) == |BouncedVisitors(es)|
  {
    var ids := VisitorIds(es);
    var ks := FirstOccurrences(ids);
    FirstOccurrencesDistinct(ids);
    GroupSizes(es);
    CountSingletonsOnce(Values(GroupByVisitor(es)), ks, ids);
    CountOnceCard(ks, ids);
    BouncedOnce(es);
  }

  /** The `i`-th group holds as many events as its visitor occurs. */
  lemma GroupSizes(es: seq<ParsedEvent>)
    ensures var gs, ks := Values(GroupByVisitor(es)), FirstOccurrences(VisitorIds(es));
      |gs| == |ks| &&
      forall i :: 0 <= i < |gs| ==> |gs[i]| == multiset(VisitorIds(es))[ks[i]]
  {
    var g := GroupByVisitor(es);
    var ids := VisitorIds(es);
    var ks := FirstOccurrences(ids);
    GroupKeys(es);
    FirstOccurrencesDistinct(ids);
    KeysLength(g);
    ValuesLength(g);
    forall i | 0 <= i < |g| ensures |Values(g)[i]| == multiset(ids)[ks[i]] {
      LookupAt(g, i);
      GroupLookup(es, g[i].key);
      EventsOfLength(es, g[i].key);
    }
  }

  /** The bounced visitors are the ids occurring exactly once. */
  lemma BouncedOnce(es: seq<ParsedEvent>)
    ensures BouncedVisitors(es) ==
      set k | k in FirstOccurrences(VisitorIds(es)) && multiset(VisitorIds(es))[k] == 1
  {
    var ids := VisitorIds(es);
    var ks := FirstOccurrences(ids);
    forall v ensures v in BouncedVisitors(es) <==> v in ks && multiset(ids)[v] == 1 {
      EventsOfLength(es, v);
    }
  }

  /** The bounce rate is the share of distinct visitors with exactly one
      event, and 0 when there are no visitors, which is exactly when there
      are no events. */
  lemma BounceRateSpec(es: seq<ParsedEvent>)
    ensures UniqueVisitors(es) == 0 <==> es == []
    ensures BounceRate(es) ==
      if UniqueVisitors(es) == 0 then 0.0
      else |BouncedVisitors(es)| as real / UniqueVisitors(es) as real
    ensures 0.0 <= BounceRate(es) <= 1.0
  {
    GroupCount(es);
    BouncedCount(es);
    var ids := VisitorIds(es);
    var bounced := |BouncedVisitors(es)|;
    var unique := UniqueVisitors(es);
    assert bounced <= unique by {
      var all := set v | v in ids;
      assert BouncedVisitors(es) <= all;
      assert all == BouncedVisitors(es) + (all - BouncedVisitors(es));
    }
    if es != [] {
      assert ids[0] in set v | v in ids;
      assert unique > 0;
      RatioBounds(bounced, unique);
    }
  }

  lemma RatioBounds(a: nat, b: nat)
    requires 0 < b && a <= b
    ensures 0.0 <= a as real / b as real <= 1.0
  {
  }

  /** Every visitor came back at least once: nobody bounced. */
  lemma NoBounces(es: seq<ParsedEvent>)
    requires forall e :: e in es ==> |EventsOf(es, e.visitorId)| >= 2
    ensures BounceRate(es) == 0.0
  {
    BounceRateSpec(es);
    forall v | v in VisitorIds(es) ensures |EventsOf(es, v)| >= 2 {
      var i :| 0 <= i < |es| && VisitorIds(es)[i] == v;
      assert es[i] in es;
    }
    assert BouncedVisitors(es) == {};
  }

  /** Every visitor came exactly once: everybody bounced. */
  lemma AllBounces(es: seq<ParsedEvent>)
    requires es != []
    requires forall e :: e in es ==> |EventsOf(es, e.visitorId)| == 1
    ensures BounceRate(es) == 1.0
  {
    BounceRateSpec(es);
    EveryoneBounced(es);
    RatioOne(UniqueVisitors(es));
  }

  lemma EveryoneBounced(es: seq<ParsedEvent>)
    requires forall e :: e in es ==> |EventsOf(es, e.visitorId)| == 1
    ensures |BouncedVisitors(es)| == UniqueVisitors(es)
  {
    forall v | v in VisitorIds(es) ensures |EventsOf(es, v)| == 1 {
      var i :| 0 <= i < |es| && VisitorIds(es)[i] == v;
      assert es[i] in es;
    }
    assert BouncedVisitors(es) == set v | v in VisitorIds(es);
  }

  lemma RatioOne(n: nat)
    requires n > 0
    ensures n as real / n as real == 1.0
  {
  }
}
