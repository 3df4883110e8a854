/** `generateTimeSeriesData` (hooks/use-analytics.ts:201-215): page views
    counted per calendar day. */
module TimeSeries {
  import opened Records
  import opened Events

  datatype TimeSeriesPoint = TimeSeriesPoint(timestamp: string, value: nat)

  /** `new Date(event.timestamp).toLocaleDateString()` for each event, with
      `dateKey` standing for the host's date conversion and locale. */
  function DateKeys(es: seq<ParsedEvent>, dateKey: string -> string): (ks: seq<string>)
    ensures |ks| == |es| && forall i :: 0 <= i < |es| ==> ks[i] == dateKey(es[i].timestamp)
  {
    if es == [] then [] else DateKeys(es[..|es| - 1], dateKey) + [dateKey(es[|es| - 1].timestamp)]
  }

  /** `Object.entries(data).map(([date, count]) => ({timestamp: date, value: count}))` */
  function ToPoints(r: seq<Entry<nat>>): (ps: seq<TimeSeriesPoint>)
    ensures |ps| == |r| && forall i :: 0 <= i < |r| ==> ps[i] == TimeSeriesPoint(r[i].key, r[i].value)
  {
    if r == [] then [] else [TimeSeriesPoint(r[0].key, r[0].value)] + ToPoints(r[1..])
  }

  function GenerateTimeSeriesData(es: seq<ParsedEvent>, dateKey: string -> string): seq<TimeSeriesPoint> {
    ToPoints(Tally(DateKeys(es, dateKey)))
  }

  function SumPoints(ps: seq<TimeSeriesPoint>): nat {
    if ps == [] then 0 else ps[0].value + SumPoints(ps[1..])
  }

  lemma {:induction false} SumPointsValues(r: seq<Entry<nat>>)
    ensures SumPoints(ToPoints(r)) == SumValues(r)
  {
    if r != [] {
      SumPointsValues(r[1..]);
      assert ToPoints(r)[1..] == ToPoints(r[1..]);
    }
  }

  /** One point per distinct day, days in the order of their first event,
      each point counting that day's events, the values adding up to the
      number of events. */
  lemma TimeSeriesSpec(es: seq<ParsedEvent>, dateKey: string -> string)
    ensures var ps := GenerateTimeSeriesData(es, dateKey);
      var ks := DateKeys(es, dateKey);
      |ps| == |FirstOccurrences(ks)| &&
      (forall i :: 0 <= i < |ps| ==> ps[i].timestamp == FirstOccurrences(ks)[i]) &&
      (forall i, j :: 0 <= i < j < |ps| ==> ps[i].timestamp != ps[j].timestamp) &&
      (forall i :: 0 <= i < |ps| ==> ps[i].value == multiset(ks)[ps[i].timestamp] >= 1) &&
      SumPoints(ps) == |es|
  {
    var ks := DateKeys(es, dateKey);
    var t := Tally(ks);
    var ps := ToPoints(t);
    TallySpec(ks);
    KeysLength(t);
    SumPointsValues(t);
    forall i | 0 <= i < |ps|
      ensures ps[i].timestamp == FirstOccurrences(ks)[i]
      ensures ps[i].value == multiset(ks)[ps[i].timestamp] >= 1
    {
      assert ps[i].timestamp == t[i].key == Keys(t)[i];
    }
    forall i, j | 0 <= i < j < |ps| ensures ps[i].timestamp != ps[j].timestamp {
      assert ps[i].timestamp == Keys(t)[i] && ps[j].timestamp == Keys(t)[j];
    }
  }
}
