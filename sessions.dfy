/** The click-count proxy for dwell time: `calculateSessionDurations`
    (hooks/use-analytics.ts:164-182) and the average taken of it in
    `updateAnalytics` (hooks/use-analytics.ts:104-108). */
module Sessions {
  import opened Records
  import opened Events

  /** Number of `click` events at positions `a` to `b - 1` of `es` (none
      when `b <= a`). */
  function ClicksBetween(es: seq<ParsedEvent>, a: nat, b: nat): nat
    requires b <= |es|
    decreases b - a
  {
    if b <= a then 0
    else ClicksBetween(es, a, b - 1) + if es[b - 1].event == ClickKind then 1 else 0
  }

  /** Number of `click` events in `es`. */
  function ClickCount(es: seq<ParsedEvent>): nat {
    ClicksBetween(es, 0, |es|)
  }

  /** Appending an event does not change the clicks counted before it. */
  lemma {:induction false} ClicksAppend(s: seq<ParsedEvent>, e: ParsedEvent, a: nat, b: nat)
    requires b <= |s|
    ensures ClicksBetween(s + [e], a, b) == ClicksBetween(s, a, b)
    decreases b - a
  {
    if a < b {
      ClicksAppend(s, e, a, b - 1);
      assert (s + [e])[b - 1] == s[b - 1];
    }
  }

  /** Positions, in increasing order, of the `pageview` events other than one
      at position 0: the events at which a duration is pushed. */
  function PageviewIndices(es: seq<ParsedEvent>): (ps: seq<nat>)
    ensures forall k :: 0 <= k < |ps| ==> 0 < ps[k] < |es|
  {
    if es == [] then []
    else
      var n := |es| - 1;
      var p := PageviewIndices(es[..n]);
      if n > 0 && es[n].event == PageViewKind then p + [n] else p
  }

  /** The positions listed are exactly the pageviews after position 0, in
      increasing order. */
  lemma {:induction false} PageviewIndicesSpec(es: seq<ParsedEvent>)
    ensures forall k, l :: 0 <= k < l < |PageviewIndices(es)| ==> PageviewIndices(es)[k] < PageviewIndices(es)[l]
    ensures forall i :: i in PageviewIndices(es) <==> 0 < i < |es| && es[i].event == PageViewKind
  {
    var ps := PageviewIndices(es);
    if es != [] {
      var n := |es| - 1;
      PageviewIndicesSpec(es[..n]);
      PageviewIndicesStep(es[..n], es[n]);
      assert es[..n] + [es[n]] == es;
    }
  }

  /** Where the `k`-th pushed session starts: the batch start or the previous
      pushing pageview. */
  function SessionStart(ps: seq<nat>, k: nat): nat
    requires k < |ps|
  {
    if k == 0 then 0 else ps[k - 1]
  }

  /** Reference definition: one duration per pushing pageview, the clicks
      since the previous pageview (or since the start of the batch). */
  function SessionDurations(es: seq<ParsedEvent>): seq<nat> {
    var ps := PageviewIndices(es);
    seq(|ps|, k requires 0 <= k < |ps| => ClicksBetween(es, SessionStart(ps, k), ps[k]))
  }

  /** Where the session still open at the end of the batch began. */
  function OpenSessionStart(es: seq<ParsedEvent>): (i: nat)
    ensures i <= |es|
  {
    var ps := PageviewIndices(es);
    if ps == [] then 0 else ps[|ps| - 1]
  }

  /** The clicks counted since the last pageview, never pushed. */
  function OpenSessionClicks(es: seq<ParsedEvent>): nat {
    ClicksBetween(es, OpenSessionStart(es), |es|)
  }

  lemma PageviewIndicesStep(s: seq<ParsedEvent>, e: ParsedEvent)
    ensures PageviewIndices(s + [e]) ==
      if e.event == PageViewKind && |s| > 0 then PageviewIndices(s) + [|s|] else PageviewIndices(s)
  {
    assert (s + [e])[..|s|] == s;
  }

  /** Durations already pushed are not affected by later events. */
  lemma DurationsPrefix(s: seq<ParsedEvent>, e: ParsedEvent, k: nat)
    requires k < |PageviewIndices(s)|
    ensures k < |SessionDurations(s + [e])| && SessionDurations(s + [e])[k] == SessionDurations(s)[k]
  {
    var t := s + [e];
    var ps := PageviewIndices(s);
    PageviewIndicesStep(s, e);
    var pt := PageviewIndices(t);
    assert pt[..|ps|] == ps;
    var a, b := SessionStart(ps, k), ps[k];
    assert SessionStart(pt, k) == a && pt[k] == b;
    ClicksAppend(s, e, a, b);
    assert SessionDurations(s)[k] == ClicksBetween(s, a, b);
    assert SessionDurations(t)[k] == ClicksBetween(t, a, b);
  }

  /** A pageview after the first position pushes the open session's clicks. */
  lemma DurationsPush(s: seq<ParsedEvent>, e: ParsedEvent)
    requires e.event == PageViewKind && |s| > 0
    ensures SessionDurations(s + [e]) == SessionDurations(s) + [OpenSessionClicks(s)]
  {
    var ds, dt := SessionDurations(s), SessionDurations(s + [e]);
    var r := ds + [OpenSessionClicks(s)];
    DurationLast(s, e);
    forall k | 0 <= k < |dt|
      ensures dt[k] == r[k]
    {
      if k < |ds| {
        DurationsPrefix(s, e, k);
      }
    }
  }

  /** The duration a pageview pushes is the open session's clicks. */
  lemma DurationLast(s: seq<ParsedEvent>, e: ParsedEvent)
    requires e.event == PageViewKind && |s| > 0
    ensures |SessionDurations(s + [e])| == |SessionDurations(s)| + 1
    ensures SessionDurations(s + [e])[|SessionDurations(s)|] == OpenSessionClicks(s)
  {
    var t := s + [e];
    var ps := PageviewIndices(s);
    PageviewIndicesStep(s, e);
    var pt := PageviewIndices(t);
    assert pt == ps + [|s|];
    var o := OpenSessionStart(s);
    assert SessionStart(pt, |ps|) == o;
    ClicksAppend(s, e, o, |s|);
    assert SessionDurations(t)[|ps|] == ClicksBetween(t, o, |s|);
  }

  /** Any other event pushes nothing. */
  lemma DurationsKeep(s: seq<ParsedEvent>, e: ParsedEvent)
    requires !(e.event == PageViewKind && |s| > 0)
    ensures SessionDurations(s + [e]) == SessionDurations(s)
  {
    var ps := PageviewIndices(s);
    PageviewIndicesStep(s, e);
    var ds, dt := SessionDurations(s), SessionDurations(s + [e]);
    assert |dt| == |ds|;
    forall k | 0 <= k < |ps|
      ensures dt[k] == ds[k]
    {
      DurationsPrefix(s, e, k);
    }
  }

  /** One event more: a pageview after the first position pushes the open
      session's clicks, anything else pushes nothing. */
  lemma SessionDurationsStep(s: seq<ParsedEvent>, e: ParsedEvent)
    ensures SessionDurations(s + [e]) ==
      if e.event == PageViewKind && |s| > 0 then SessionDurations(s) + [OpenSessionClicks(s)]
      else SessionDurations(s)
  {
    if e.event == PageViewKind && |s| > 0 {
      DurationsPush(s, e);
    } else {
      DurationsKeep(s, e);
    }
  }

  /** One event more: a pageview opens a new session, a click adds one to
      the open session, anything else changes nothing. */
  lemma OpenSessionStep(s: seq<ParsedEvent>, e: ParsedEvent)
    ensures OpenSessionClicks(s + [e]) ==
      if e.event == PageViewKind then 0
      else if e.event == ClickKind then OpenSessionClicks(s) + 1
      else OpenSessionClicks(s)
  {
    var t := s + [e];
    PageviewIndicesStep(s, e);
    assert PageViewKind != ClickKind by { assert PageViewKind[0] != ClickKind[0]; }
    if e.event == PageViewKind {
      assert OpenSessionStart(t) == |s|;
      assert t[|s|] == e;
      assert ClicksBetween(t, |s|, |s| + 1) == ClicksBetween(t, |s|, |s|) + 0;
    } else {
      var o := OpenSessionStart(s);
      assert OpenSessionStart(t) == o;
      ClicksAppend(s, e, o, |s|);
    }
  }

  /** One iteration of the loop on the event at index `i`, from the
      durations pushed so far and the open session's click count. */
  function Step(w: (seq<nat>, nat), e: ParsedEvent, i: nat): (seq<nat>, nat) {
    if e.event == PageViewKind then (if i > 0 then w.0 + [w.1] else w.0, 0)
    else if e.event == ClickKind then (w.0, w.1 + 1)
    else w
  }

  /** The loop's two variables after the events `es`. */
  function Walk(es: seq<ParsedEvent>): (seq<nat>, nat) {
    if es == [] then ([], 0)
    else Step(Walk(es[..|es| - 1]), es[|es| - 1], |es| - 1)
  }

  lemma WalkStep(s: seq<ParsedEvent>, e: ParsedEvent)
    ensures Walk(s + [e]) == Step(Walk(s), e, |s|)
  {
    assert (s + [e])[..|s|] == s;
  }

  /** One iteration takes the reference values for `s` to those for `s + [e]`. */
  lemma StepSpec(s: seq<ParsedEvent>, e: ParsedEvent)
    ensures Step((SessionDurations(s), OpenSessionClicks(s)), e, |s|) ==
      (SessionDurations(s + [e]), OpenSessionClicks(s + [e]))
  {
    SessionDurationsStep(s, e);
    OpenSessionStep(s, e);
  }

  /** The loop computes the reference definitions. */
  lemma {:induction false} WalkSpec(es: seq<ParsedEvent>)
    ensures Walk(es) == (SessionDurations(es), OpenSessionClicks(es))
  {
    if es == [] {
      assert PageviewIndices(es) == [];
      assert SessionDurations(es) == [];
    } else {
      var n := |es| - 1;
      var s, e := es[..n], es[n];
      assert es == s + [e];
      WalkSpec(s);
      WalkStep(s, e);
      StepSpec(s, e);
    }
  }

  /** `calculateSessionDurations(events)` */
  method CalculateSessionDurations(events: seq<ParsedEvent>) returns (sessionDurations: seq<nat>)
    ensures sessionDurations == SessionDurations(events)
  {
    sessionDurations := [];
    var currentSessionDuration: nat := 0;
    for i := 0 to |events|
      invariant (sessionDurations, currentSessionDuration) == Walk(events[..i])
    {
      assert events[..i + 1] == events[..i] + [events[i]];
      WalkStep(events[..i], events[i]);
      var event := events[i];
      if event.event == PageViewKind {
        if i > 0 {
          sessionDurations := sessionDurations + [currentSessionDuration];
        }
        currentSessionDuration := 0;
      } else if event.event == ClickKind {
        currentSessionDuration := currentSessionDuration + 1;
      }
    }
    assert events[..|events|] == events;
    WalkSpec(events);
  }

  function Sum(s: seq<nat>): nat {
    if s == [] then 0 else Sum(s[..|s| - 1]) + s[|s| - 1]
  }

  /** `sum / length`, or 0 for an empty list (exact arithmetic). */
  function Average(s: seq<nat>): (avg: real)
    ensures avg >= 0.0
    ensures |s| == 0 ==> avg == 0.0
  {
    if |s| == 0 then 0.0 else Sum(s) as real / |s| as real
  }

  /** The mean times the count is the sum. */
  lemma AverageSpec(s: seq<nat>)
    requires |s| > 0
    ensures Average(s) * |s| as real == Sum(s) as real
  {
  }

  /** One duration is pushed per pageview, except a pageview that opens the
      batch. */
  lemma {:induction false} SessionCount(es: seq<ParsedEvent>)
    ensures |SessionDurations(es)| ==
      multiset(MapSeq(KindOf, es))[PageViewKind] - if es != [] && es[0].event == PageViewKind then 1 else 0
  {
    if es != [] {
      var n := |es| - 1;
      var s := es[..n];
      assert es == s + [es[n]];
      SessionCount(s);
      PageviewIndicesStep(s, es[n]);
      assert MapSeq(KindOf, es) == MapSeq(KindOf, s) + [es[n].event];
      if n > 0 {
        assert s[0] == es[0];
        assert es[0].event == PageViewKind ==> multiset(MapSeq(KindOf, s))[PageViewKind] >= 1 by {
          if es[0].event == PageViewKind { assert MapSeq(KindOf, s)[0] == PageViewKind; }
        }
      }
    }
  }

  /** Every click before the last pushing pageview is pushed exactly once;
      the clicks after it stay in the open session and are dropped. */
  lemma {:induction false} SessionClicksAccounted(es: seq<ParsedEvent>)
    ensures Sum(SessionDurations(es)) + OpenSessionClicks(es) == ClickCount(es)
  {
    if es != [] {
      var n := |es| - 1;
      var s, e := es[..n], es[n];
      assert es == s + [e];
      SessionClicksAccounted(s);
      ClicksStep(s, e);
      SessionDurationsStep(s, e);
      OpenSessionStep(s, e);
      assert PageViewKind != ClickKind by { assert PageViewKind[0] != ClickKind[0]; }
      if e.event == PageViewKind && n > 0 {
        SumAppend(SessionDurations(s), OpenSessionClicks(s));
      }
    }
  }

  lemma ClicksStep(s: seq<ParsedEvent>, e: ParsedEvent)
    ensures ClickCount(s + [e]) == ClickCount(s) + if e.event == ClickKind then 1 else 0
  {
    ClicksAppend(s, e, 0, |s|);
  }

  lemma SumAppend(s: seq<nat>, x: nat)
    ensures Sum(s + [x]) == Sum(s) + x
  {
    assert (s + [x])[..|s|] == s;
  }
}
