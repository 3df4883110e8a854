/** `aggregatePageViews` (hooks/use-analytics.ts:217-233): page views per
    page, sorted by descending count with a stable sort, cut to five. */
module TopPages {
  import opened Wrappers
  import opened Records
  import opened Events

  /** One entry of the result: its `page` and `views` properties. */
  datatype PageEntry = PageEntry(page: string, views: nat)

  const TopPagesLimit: nat := 5

  /** `event.page || "/"` */
  function PageOf(e: ParsedEvent): string {
    match e.page
    case Some(p) => if p == "" then "/" else p
    case None => "/"
  }

  /** `Object.entries(pages).map(([page, views]) => ...)` */
  function ToPageEntries(r: seq<Entry<nat>>): (ps: seq<PageEntry>)
    ensures |ps| == |r| && forall i :: 0 <= i < |r| ==> ps[i] == PageEntry(r[i].key, r[i].value)
  {
    if r == [] then [] else [PageEntry(r[0].key, r[0].value)] + ToPageEntries(r[1..])
  }

  predicate SortedByViews(s: seq<PageEntry>) {
    forall i, j :: 0 <= i < j < |s| ==> s[i].views >= s[j].views
  }

  /** Where a stable sort by descending views places `x` among the already
      sorted `t`: after every entry with at least as many views. */
  function InsertPoint(t: seq<PageEntry>, x: PageEntry): (k: nat)
    ensures k <= |t|
    ensures forall i :: 0 <= i < k ==> t[i].views >= x.views
    ensures k < |t| ==> t[k].views < x.views
  {
    if t == [] || t[0].views < x.views then 0 else 1 + InsertPoint(t[1..], x)
  }

  function Insert(t: seq<PageEntry>, x: PageEntry): seq<PageEntry> {
    var k := InsertPoint(t, x);
    t[..k] + [x] + t[k..]
  }

  /** `.sort((a, b) => b.views - a.views)`: the output of any stable sort,
      obtained here by inserting the entries one after another. */
  function SortByViews(s: seq<PageEntry>): seq<PageEntry> {
    if s == [] then [] else Insert(SortByViews(s[..|s| - 1]), s[|s| - 1])
  }

  /** Position of an entry in a list without repetitions. */
  function IndexOf(s: seq<PageEntry>, x: PageEntry): (i: nat)
    requires x in s
    ensures i < |s| && s[i] == x
  {
    if s[0] == x then 0 else 1 + IndexOf(s[1..], x)
  }

  /** Entries of equal views keep their input order. */
  ghost predicate StableWrt(r: seq<PageEntry>, s: seq<PageEntry>) {
    && (forall x :: x in r ==> x in s)
    && forall i, j :: 0 <= i < j < |r| && r[i].views == r[j].views ==> IndexOf(s, r[i]) < IndexOf(s, r[j])
  }

  /** Where each entry ends up after an insertion at `k`. */
  lemma InsertIndex(t: seq<PageEntry>, x: PageEntry)
    ensures var k, r := InsertPoint(t, x), Insert(t, x);
      && |r| == |t| + 1 && r[k] == x
      && (forall i :: 0 <= i < k ==> r[i] == t[i])
      && (forall i :: k < i < |r| ==> r[i] == t[i - 1])
  {
  }

  /** Behind the inserted entry come only entries with fewer views. */
  lemma InsertAfter(t: seq<PageEntry>, x: PageEntry)
    requires SortedByViews(t)
    ensures var k, r := InsertPoint(t, x), Insert(t, x);
      forall j :: k < j < |r| ==> r[j].views < x.views
  {
    var k, r := InsertPoint(t, x), Insert(t, x);
    InsertIndex(t, x);
    forall j | k < j < |r| ensures r[j].views < x.views {
      assert r[j] == t[j - 1];
      assert t[k].views >= t[j - 1].views;
    }
  }

  lemma InsertMultiset(t: seq<PageEntry>, x: PageEntry)
    ensures multiset(Insert(t, x)) == multiset(t) + multiset{x}
  {
    var k := InsertPoint(t, x);
    assert t == t[..k] + t[k..];
  }

  lemma InsertSorted(t: seq<PageEntry>, x: PageEntry)
    requires SortedByViews(t)
    ensures SortedByViews(Insert(t, x))
    ensures multiset(Insert(t, x)) == multiset(t) + multiset{x}
  {
    var k := InsertPoint(t, x);
    var r := Insert(t, x);
    InsertIndex(t, x);
    InsertMultiset(t, x);
    forall i, j | 0 <= i < j < |r| ensures r[i].views >= r[j].views {
      if j < k {
        assert r[i] == t[i] && r[j] == t[j];
      } else if j == k {
        assert r[i] == t[i];
      } else if i < k {
        assert r[i] == t[i] && r[j] == t[j - 1];
      } else if i == k {
        assert r[j] == t[j - 1];
        assert t[k].views >= t[j - 1].views;
      } else {
        assert r[i] == t[i - 1] && r[j] == t[j - 1];
      }
    }
  }

  /** The sort returns a permutation of its input, ordered by descending views. */
  lemma {:induction false} SortSpec(s: seq<PageEntry>)
    ensures SortedByViews(SortByViews(s))
    ensures multiset(SortByViews(s)) == multiset(s)
    ensures |SortByViews(s)| == |s|
  {
    if s != [] {
      var n := |s| - 1;
      SortSpec(s[..n]);
      InsertSorted(SortByViews(s[..n]), s[n]);
      assert s == s[..n] + [s[n]];
    }
    assert |multiset(SortByViews(s))| == |multiset(s)|;
  }

  lemma IndexOfPrefix(s: seq<PageEntry>, y: PageEntry, x: PageEntry)
    requires x in s
    ensures IndexOf(s + [y], x) == IndexOf(s, x)
  {
    if s[0] != x {
      assert (s + [y])[1..] == s[1..] + [y];
      IndexOfPrefix(s[1..], y, x);
    }
  }

  lemma IndexOfDistinct(s: seq<PageEntry>, i: nat)
    requires Distinct(s) && i < |s|
    ensures IndexOf(s, s[i]) == i
  {
    var j := IndexOf(s, s[i]);
  }

  /** Positions in `s + [x]`: `x` comes last, the others keep theirs. */
  lemma IndexOfAppend(s: seq<PageEntry>, x: PageEntry)
    requires Distinct(s + [x])
    ensures IndexOf(s + [x], x) == |s|
    ensures forall y :: y in s ==> IndexOf(s + [x], y) == IndexOf(s, y) < |s|
  {
    var sx := s + [x];
    IndexOfDistinct(sx, |s|);
    forall y | y in s ensures IndexOf(sx, y) == IndexOf(s, y) < |s| {
      IndexOfPrefix(s, x, y);
    }
  }

  /** Inserting `x` after every entry with at least as many views puts it
      after the entries of equal views, all of which came before it. */
  lemma InsertStableOrder(t: seq<PageEntry>, s: seq<PageEntry>, x: PageEntry)
    requires SortedByViews(t)
    requires forall y :: y in t ==> y in s
    requires Distinct(s + [x])
    requires forall i, j :: 0 <= i < j < |t| && t[i].views == t[j].views ==> IndexOf(s, t[i]) < IndexOf(s, t[j])
    ensures var r := Insert(t, x);
      forall i, j :: 0 <= i < j < |r| && r[i].views == r[j].views ==> IndexOf(s + [x], r[i]) < IndexOf(s + [x], r[j])
  {
    var r := Insert(t, x);
    InsertIndex(t, x);
    IndexOfAppend(s, x);
    forall i, j | 0 <= i < j < |r| && r[i].views == r[j].views
      ensures IndexOf(s + [x], r[i]) < IndexOf(s + [x], r[j])
    {
      InsertPair(t, s, x, i, j);
    }
  }

  lemma InsertPair(t: seq<PageEntry>, s: seq<PageEntry>, x: PageEntry, i: nat, j: nat)
    requires SortedByViews(t)
    requires forall y :: y in t ==> y in s
    requires forall i, j :: 0 <= i < j < |t| && t[i].views == t[j].views ==> IndexOf(s, t[i]) < IndexOf(s, t[j])
    requires IndexOf(s + [x], x) == |s|
    requires forall y :: y in s ==> IndexOf(s + [x], y) == IndexOf(s, y) < |s|
    requires i < j < |Insert(t, x)| && Insert(t, x)[i].views == Insert(t, x)[j].views
    ensures IndexOf(s + [x], Insert(t, x)[i]) < IndexOf(s + [x], Insert(t, x)[j])
  {
    var k := InsertPoint(t, x);
    var r := Insert(t, x);
    var sx := s + [x];
    InsertIndex(t, x);
    InsertAfter(t, x);
    if j == k {
      assert r[i] == t[i] && t[i] in s;
      assert IndexOf(sx, t[i]) == IndexOf(s, t[i]) < |s|;
    } else if i == k {
      assert false;
    } else {
      var i' := if i < k then i else i - 1;
      var j' := if j < k then j else j - 1;
      assert r[i] == t[i'] && r[j] == t[j'] && i' < j';
      assert t[i'] in s && t[j'] in s;
      assert IndexOf(sx, t[i']) == IndexOf(s, t[i']);
      assert IndexOf(sx, t[j']) == IndexOf(s, t[j']);
    }
  }

  lemma InsertStable(t: seq<PageEntry>, s: seq<PageEntry>, x: PageEntry)
    requires SortedByViews(t)
    requires multiset(t) == multiset(s)
    requires Distinct(s + [x])
    requires StableWrt(t, s)
    ensures StableWrt(Insert(t, x), s + [x])
  {
    var r := Insert(t, x);
    var sx := s + [x];
    InsertMultiset(t, x);
    assert multiset(r) == multiset(sx);
    forall y | y in r ensures y in sx {
      assert y in multiset(r);
    }
    InsertStableOrder(t, s, x);
  }

  /** Entries of equal views keep their input order. */
  lemma {:induction false} SortStable(s: seq<PageEntry>)
    requires Distinct(s)
    ensures StableWrt(SortByViews(s), s)
  {
    if s != [] {
      var n := |s| - 1;
      var p := s[..n];
      assert Distinct(p);
      SortStable(p);
      SortSpec(p);
      assert s == p + [s[n]];
      InsertStable(SortByViews(p), p, s[n]);
    }
  }

  function PageKeys(es: seq<ParsedEvent>): seq<string> {
    MapSeq(PageOf, es)
  }

  /** `aggregatePageViews(events)` */
  function AggregatePageViews(es: seq<ParsedEvent>): seq<PageEntry> {
    var sorted := SortByViews(PageEntries(es));
    sorted[..if |sorted| < TopPagesLimit then |sorted| else TopPagesLimit]
  }

  /** Every page with its number of views, in first-occurrence order. */
  function PageEntries(es: seq<ParsedEvent>): seq<PageEntry> {
    ToPageEntries(Tally(PageKeys(es)))
  }

  lemma {:induction false} DistinctMultiplicity(s: seq<PageEntry>)
    requires Distinct(s)
    ensures forall x :: multiset(s)[x] <= 1
  {
    if s != [] {
      var n := |s| - 1;
      assert Distinct(s[..n]);
      DistinctMultiplicity(s[..n]);
      assert s == s[..n] + [s[n]];
      assert s[n] !in s[..n];
    }
  }

  lemma MultiplicityDistinct(s: seq<PageEntry>)
    requires forall x :: multiset(s)[x] <= 1
    ensures Distinct(s)
  {
    forall i, j | 0 <= i < j < |s| ensures s[i] != s[j] {
      assert s == s[..i] + [s[i]] + s[i + 1..j] + [s[j]] + s[j + 1..];
      assert multiset(s)[s[i]] >= multiset{s[i], s[j]}[s[i]];
    }
  }

  /** What the page list is made of before sorting. */
  lemma PageEntriesSpec(es: seq<ParsedEvent>)
    ensures |PageEntries(es)| == |FirstOccurrences(PageKeys(es))|
    ensures forall i :: 0 <= i < |PageEntries(es)| ==>
      PageEntries(es)[i].page == FirstOccurrences(PageKeys(es))[i] &&
      PageEntries(es)[i].page in PageKeys(es) &&
      PageEntries(es)[i].views == multiset(PageKeys(es))[PageEntries(es)[i].page] >= 1
    ensures forall i, j :: 0 <= i < j < |PageEntries(es)| ==> PageEntries(es)[i].page != PageEntries(es)[j].page
    ensures Distinct(PageEntries(es))
  {
    var ks := PageKeys(es);
    var t := Tally(ks);
    TallySpec(ks);
    KeysLength(t);
    forall i, j | 0 <= i < j < |t| ensures t[i].key != t[j].key {
      assert Keys(t)[i] != Keys(t)[j];
    }
  }

  /** The sorted list holds each entry once, so its pages are distinct too. */
  lemma SortedPageEntriesSpec(es: seq<ParsedEvent>)
    ensures var entries := PageEntries(es);
      var sorted := SortByViews(entries);
      && SortedByViews(sorted) && multiset(sorted) == multiset(entries) && |sorted| == |entries|
      && StableWrt(sorted, entries)
      && (forall i :: 0 <= i < |sorted| ==> sorted[i] in entries)
      && (forall i, j :: 0 <= i < j < |sorted| ==> sorted[i].page != sorted[j].page)
  {
    var entries := PageEntries(es);
    var sorted := SortByViews(entries);
    PageEntriesSpec(es);
    SortSpec(entries);
    SortStable(entries);
    DistinctMultiplicity(entries);
    MultiplicityDistinct(sorted);
    forall i, j | 0 <= i < j < |sorted| ensures sorted[i].page != sorted[j].page {
      var a, b := IndexOf(entries, sorted[i]), IndexOf(entries, sorted[j]);
      assert sorted[i] != sorted[j];
    }
  }

  /** The list is the sorted list of all pages cut to its first five. */
  lemma TopPagesPrefix(es: seq<ParsedEvent>)
    ensures var sorted := SortByViews(PageEntries(es));
      var n := |FirstOccurrences(PageKeys(es))|;
      var m := if n < TopPagesLimit then n else TopPagesLimit;
      m <= |sorted| && AggregatePageViews(es) == sorted[..m]
  {
    PageEntriesSpec(es);
    SortSpec(PageEntries(es));
  }

  /** At most five entries, and no more than there are distinct pages: all
      of them when there are at most five. */
  lemma TopPagesLength(es: seq<ParsedEvent>)
    ensures var n := |FirstOccurrences(PageKeys(es))|;
      |AggregatePageViews(es)| == if n < TopPagesLimit then n else TopPagesLimit
  {
    TopPagesPrefix(es);
  }

  /** Views never increase along the list. */
  lemma TopPagesSorted(es: seq<ParsedEvent>)
    ensures SortedByViews(AggregatePageViews(es))
  {
    TopPagesPrefix(es);
    SortedPageEntriesSpec(es);
  }

  /** No page is listed twice. */
  lemma TopPagesDistinct(es: seq<ParsedEvent>)
    ensures var r := AggregatePageViews(es);
      forall i, j :: 0 <= i < j < |r| ==> r[i].page != r[j].page
  {
    TopPagesPrefix(es);
    SortedPageEntriesSpec(es);
  }

  /** Each listed page was viewed, and its views are the number of events
      counted for it. */
  lemma TopPagesCounts(es: seq<ParsedEvent>)
    ensures var r := AggregatePageViews(es);
      forall i :: 0 <= i < |r| ==>
        r[i].page in PageKeys(es) && r[i].views == multiset(PageKeys(es))[r[i].page] >= 1
  {
    var entries := PageEntries(es);
    var sorted := SortByViews(entries);
    var r := AggregatePageViews(es);
    TopPagesPrefix(es);
    SortedPageEntriesSpec(es);
    forall i | 0 <= i < |r|
      ensures r[i].page in PageKeys(es) && r[i].views == multiset(PageKeys(es))[r[i].page] >= 1
    {
      assert r[i] == sorted[i];
      EntryCounts(es, sorted[i]);
    }
  }

  /** An entry of the page list names a viewed page and counts its views. */
  lemma EntryCounts(es: seq<ParsedEvent>, y: PageEntry)
    requires y in PageEntries(es)
    ensures y.page in PageKeys(es) && y.views == multiset(PageKeys(es))[y.page] >= 1
  {
    PageEntriesSpec(es);
    var a := IndexOf(PageEntries(es), y);
  }

  /** Every viewed page is somewhere in the sorted list of all pages. */
  lemma SortedHasPage(es: seq<ParsedEvent>, p: string) returns (j: nat)
    requires p in PageKeys(es)
    ensures var sorted := SortByViews(PageEntries(es));
      j < |sorted| && sorted[j].page == p && sorted[j].views == multiset(PageKeys(es))[p]
  {
    var ks := PageKeys(es);
    var entries := PageEntries(es);
    var sorted := SortByViews(entries);
    PageEntriesSpec(es);
    SortSpec(entries);
    var a := FirstIndex(FirstOccurrences(ks), p);
    assert entries[a].page == p && entries[a].views == multiset(ks)[p];
    assert entries[a] in multiset(sorted);
    j :| 0 <= j < |sorted| && sorted[j] == entries[a];
  }

  /** The five listed are the most viewed: a page left out is viewed no more
      often than the last page listed, and then five pages are listed. */
  lemma TopPagesComplete(es: seq<ParsedEvent>, p: string)
    requires p in PageKeys(es)
    requires forall i :: 0 <= i < |AggregatePageViews(es)| ==> AggregatePageViews(es)[i].page != p
    ensures |AggregatePageViews(es)| == TopPagesLimit
    ensures multiset(PageKeys(es))[p] <= AggregatePageViews(es)[TopPagesLimit - 1].views
  {
    var sorted := SortByViews(PageEntries(es));
    var r := AggregatePageViews(es);
    TopPagesPrefix(es);
    SortSpec(PageEntries(es));
    var j := SortedHasPage(es, p);
    forall i | 0 <= i < |r| ensures r[i] == sorted[i] {
    }
    assert j >= |r|;
    assert |r| == TopPagesLimit;
    assert r[TopPagesLimit - 1] == sorted[TopPagesLimit - 1];
  }

  /** Ties keep first-occurrence order: of two listed pages with equal views,
      the one first seen earlier comes first. */
  lemma TopPagesStable(es: seq<ParsedEvent>)
    ensures var r := AggregatePageViews(es);
      var ks := PageKeys(es);
      forall i, j :: 0 <= i < j < |r| && r[i].views == r[j].views ==>
        r[i].page in ks && r[j].page in ks && FirstIndex(ks, r[i].page) < FirstIndex(ks, r[j].page)
  {
    var ks := PageKeys(es);
    var entries := PageEntries(es);
    var sorted := SortByViews(entries);
    var r := AggregatePageViews(es);
    PageEntriesSpec(es);
    SortedPageEntriesSpec(es);
    FirstOccurrencesOrdered(ks);
    TopPagesPrefix(es);
    forall i, j | 0 <= i < j < |r| && r[i].views == r[j].views
      ensures r[i].page in ks && r[j].page in ks && FirstIndex(ks, r[i].page) < FirstIndex(ks, r[j].page)
    {
      assert r[i] == sorted[i] && r[j] == sorted[j];
      var a, b := IndexOf(entries, sorted[i]), IndexOf(entries, sorted[j]);
      assert a < b;
      assert r[i].page == FirstOccurrences(ks)[a] && r[j].page == FirstOccurrences(ks)[b];
    }
  }
}
