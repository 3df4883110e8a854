/** Device classification of `aggregateDeviceStats`
    (hooks/use-analytics.ts:235-255). */
module Devices {
  import opened Records
  import opened Events

  const MobileLabel: string := "mobile"
  const TabletLabel: string := "tablet"
  const DesktopLabel: string := "desktop"
  const UnknownLabel: string := "unknown"

  /** `toLowerCase` on one character, for the ASCII letters. */
  function LowerChar(c: char): char {
    if 'A' <= c <= 'Z' then (c as int + 32) as char else c
  }

  function Lower(s: string): string {
    seq(|s|, i requires 0 <= i < |s| => LowerChar(s[i]))
  }

  /** `s.includes(t)`, searching from the left. */
  predicate Includes(s: string, t: string)
    decreases |s|
  {
    (|t| <= |s| && s[..|t|] == t) || (|s| > 0 && Includes(s[1..], t))
  }

  /** Reference definition of a substring: `t` occurs in `s` at position `i`. */
  predicate OccursAt(s: string, t: string, i: nat) {
    i + |t| <= |s| && s[i..i + |t|] == t
  }

  ghost predicate HasSubstring(s: string, t: string) {
    exists i: nat :: OccursAt(s, t, i)
  }

  /** The search finds `t` exactly when it occurs somewhere in `s`. */
  lemma {:induction false} IncludesIff(s: string, t: string)
    ensures Includes(s, t) <==> HasSubstring(s, t)
    decreases |s|
  {
    if |t| <= |s| && s[..|t|] == t {
      assert OccursAt(s, t, 0);
    } else if |s| > 0 {
      IncludesIff(s[1..], t);
      if Includes(s[1..], t) {
        var i: nat :| OccursAt(s[1..], t, i);
        assert s[1..][i..i + |t|] == s[i + 1..i + 1 + |t|];
        assert OccursAt(s, t, i + 1);
      }
      if HasSubstring(s, t) {
        var i: nat :| OccursAt(s, t, i);
        assert i != 0;
        assert s[1..][i - 1..i - 1 + |t|] == s[i..i + |t|];
        assert OccursAt(s[1..], t, i - 1);
      }
    }
  }

  /** The device class of one user agent: the first of `mobile`, `tablet`,
      any of `windows`/`macintosh`/`linux` found in the lower-cased string,
      else `unknown`. */
  function Classify(userAgent: string): (device: string)
    ensures device in {MobileLabel, TabletLabel, DesktopLabel, UnknownLabel}
  {
    var ua := Lower(userAgent);
    if Includes(ua, "mobile") then MobileLabel
    else if Includes(ua, "tablet") then TabletLabel
    else if Includes(ua, "windows") || Includes(ua, "macintosh") || Includes(ua, "linux") then DesktopLabel
    else UnknownLabel
  }

  /** The precedence of the four classes, each stated as an equivalence on
      where the keywords occur in the lower-cased user agent. */
  lemma ClassifyPrecedence(userAgent: string)
    ensures var ua := Lower(userAgent);
      && (Classify(userAgent) == MobileLabel <==> HasSubstring(ua, "mobile"))
      && (Classify(userAgent) == TabletLabel <==>
            !HasSubstring(ua, "mobile") && HasSubstring(ua, "tablet"))
      && (Classify(userAgent) == DesktopLabel <==>
            !HasSubstring(ua, "mobile") && !HasSubstring(ua, "tablet") &&
            (HasSubstring(ua, "windows") || HasSubstring(ua, "macintosh") || HasSubstring(ua, "linux")))
      && (Classify(userAgent) == UnknownLabel <==>
            !HasSubstring(ua, "mobile") && !HasSubstring(ua, "tablet") &&
            !HasSubstring(ua, "windows") && !HasSubstring(ua, "macintosh") && !HasSubstring(ua, "linux"))
  {
    var ua := Lower(userAgent);
    IncludesIff(ua, "mobile");
    IncludesIff(ua, "tablet");
    IncludesIff(ua, "windows");
    IncludesIff(ua, "macintosh");
    IncludesIff(ua, "linux");
    assert MobileLabel[0] != TabletLabel[0] && MobileLabel[0] != DesktopLabel[0] && MobileLabel[0] != UnknownLabel[0];
    assert TabletLabel[0] != DesktopLabel[0] && TabletLabel[0] != UnknownLabel[0] && DesktopLabel[0] != UnknownLabel[0];
  }

  /** Classification ignores the case of ASCII letters. */
  lemma ClassifyIgnoresCase(a: string, b: string)
    requires |a| == |b|
    requires forall i :: 0 <= i < |a| ==> LowerChar(a[i]) == LowerChar(b[i])
    ensures Classify(a) == Classify(b)
  {
    assert Lower(a) == Lower(b);
  }

  function DeviceOf(e: ParsedEvent): string { Classify(e.userAgent) }

  /** Every event is classed under one of the four labels. */
  lemma DeviceLabels(es: seq<ParsedEvent>)
    ensures forall d :: d in MapSeq(DeviceOf, es) ==> d in {MobileLabel, TabletLabel, DesktopLabel, UnknownLabel}
  {
    var ds := MapSeq(DeviceOf, es);
    forall d | d in ds
      ensures d in {MobileLabel, TabletLabel, DesktopLabel, UnknownLabel}
    {
      var j :| 0 <= j < |ds| && ds[j] == d;
      assert d == Classify(es[j].userAgent);
    }
  }

  /** `aggregateDeviceStats(events)`: events counted per device class. */
  function DeviceStats(es: seq<ParsedEvent>): seq<Entry<nat>> {
    Tally(MapSeq(DeviceOf, es))
  }

  /** Only the four labels occur, each once, in first-occurrence order; each
      count is the number of events of that class, and the counts add up to
      the number of events. */
  lemma DeviceStatsSpec(es: seq<ParsedEvent>)
    ensures Distinct(Keys(DeviceStats(es)))
    ensures Keys(DeviceStats(es)) == FirstOccurrences(MapSeq(DeviceOf, es))
    ensures forall i :: 0 <= i < |DeviceStats(es)| ==>
      DeviceStats(es)[i].key in {MobileLabel, TabletLabel, DesktopLabel, UnknownLabel} &&
      DeviceStats(es)[i].value == multiset(MapSeq(DeviceOf, es))[DeviceStats(es)[i].key] >= 1
    ensures SumValues(DeviceStats(es)) == |es|
  {
    TallySpec(MapSeq(DeviceOf, es));
    DeviceLabels(es);
  }
}
