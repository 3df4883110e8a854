/** Optional values, for absent dictionary keys, absent `page` fields and
    `JSON.parse` calls that throw. */
module Wrappers {

  datatype Option<+T> = None | Some(value: T) {

    /** The JavaScript `x || default` idiom on a possibly absent value. */
    function GetOr(default: T): T {
      match this
      case Some(v) => v
      case None => default
    }
  }
}

/** A JavaScript object used as a dictionary (`Record<string, V>`), as the
    `reduce` accumulators of hooks/use-analytics.ts use it.  Its own
    properties are kept as a list in insertion order, which is the order
    `Object.entries`, `Object.keys` and `Object.values` report them in for
    keys that are not integer-like. */
module Records {
  import opened Wrappers

  datatype Entry<V> = Entry(key: string, value: V)

  predicate Distinct<T(==)>(s: seq<T>) {
    forall i, j :: 0 <= i < j < |s| ==> s[i] != s[j]
  }

  /** `s.map(f)` */
  function MapSeq<A, B>(f: A -> B, s: seq<A>): (r: seq<B>)
    ensures |r| == |s| && forall i :: 0 <= i < |s| ==> r[i] == f(s[i])
  {
    if s == [] then [] else MapSeq(f, s[..|s| - 1]) + [f(s[|s| - 1])]
  }

  /** `Object.keys(r)` */
  function Keys<V>(r: seq<Entry<V>>): seq<string> {
    if r == [] then [] else [r[0].key] + Keys(r[1..])
  }

  /** `Object.values(r)` */
  function Values<V>(r: seq<Entry<V>>): seq<V> {
    if r == [] then [] else [r[0].value] + Values(r[1..])
  }

  /** `r[k]`, None when `k` is not an own property. */
  function Lookup<V>(r: seq<Entry<V>>, k: string): Option<V> {
    if r == [] then None
    else if r[0].key == k then Some(r[0].value)
    else Lookup(r[1..], k)
  }

  /** `r[k] = v`: an existing key keeps its position, a new key is appended. */
  function Put<V>(r: seq<Entry<V>>, k: string, v: V): seq<Entry<V>> {
    if r == [] then [Entry(k, v)]
    else if r[0].key == k then [Entry(k, v)] + r[1..]
    else [r[0]] + Put(r[1..], k, v)
  }

  /** `r[k] = (r[k] || 0) + 1` */
  function Increment(r: seq<Entry<nat>>, k: string): seq<Entry<nat>> {
    Put(r, k, Lookup(r, k).GetOr(0) + 1)
  }

  /** The counter dictionary built by incrementing `ks[0]`, ..., `ks[|ks| - 1]`
      in turn, starting from `{}`. */
  function Tally(ks: seq<string>): seq<Entry<nat>> {
    if ks == [] then [] else Increment(Tally(ks[..|ks| - 1]), ks[|ks| - 1])
  }

  function SumValues(r: seq<Entry<nat>>): nat {
    if r == [] then 0 else r[0].value + SumValues(r[1..])
  }

  /** Reference order: each distinct element of `s` once, where it first occurs. */
  function FirstOccurrences(s: seq<string>): (r: seq<string>)
    ensures forall x :: x in r <==> x in s
  {
    if s == [] then []
    else
      var p := FirstOccurrences(s[..|s| - 1]);
      assert s == s[..|s| - 1] + [s[|s| - 1]];
      if s[|s| - 1] in p then p else p + [s[|s| - 1]]
  }

  /** Position of the first occurrence of `x` in `s`. */
  function FirstIndex(s: seq<string>, x: string): (i: nat)
    requires x in s
    ensures i < |s| && s[i] == x && x !in s[..i]
  {
    var n := |s| - 1;
    if x in s[..n] then
      assert s[..n][..FirstIndex(s[..n], x)] == s[..FirstIndex(s[..n], x)];
      FirstIndex(s[..n], x)
    else n
  }

  lemma {:induction false} MapSeqConcat<A, B>(f: A -> B, a: seq<A>, b: seq<A>)
    ensures MapSeq(f, a + b) == MapSeq(f, a) + MapSeq(f, b)
  {
    if b != [] {
      var n := |b| - 1;
      assert a + b == (a + b[..n]) + [b[n]];
      MapSeqConcat(f, a, b[..n]);
    } else {
      assert a + b == a;
    }
  }

  lemma MultisetRemove<A>(t: seq<A>, j: nat)
    requires j < |t|
    ensures multiset(t[..j] + t[j + 1..]) == multiset(t) - multiset{t[j]}
  {
    assert t == t[..j] + [t[j]] + t[j + 1..];
  }

  lemma MapSeqSplit<A, B>(f: A -> B, t: seq<A>, j: nat)
    requires j < |t|
    ensures MapSeq(f, t) == MapSeq(f, t[..j]) + [f(t[j])] + MapSeq(f, t[j + 1..])
  {
    var l := MapSeq(f, t);
    var r := MapSeq(f, t[..j]) + [f(t[j])] + MapSeq(f, t[j + 1..]);
    assert |l| == |r|;
    forall i | 0 <= i < |l| ensures l[i] == r[i] {
      if i < j {
        assert r[i] == MapSeq(f, t[..j])[i] == f(t[..j][i]);
      } else if i > j {
        assert r[i] == MapSeq(f, t[j + 1..])[i - j - 1] == f(t[j + 1..][i - j - 1]);
      }
    }
  }

  lemma MultisetMiddle<B>(a: seq<B>, y: B, b: seq<B>)
    ensures multiset(a + [y] + b) == multiset(a + b) + multiset{y}
  {
  }

  lemma MapSeqRemove<A, B>(f: A -> B, t: seq<A>, j: nat)
    requires j < |t|
    ensures multiset(MapSeq(f, t)) == multiset(MapSeq(f, t[..j] + t[j + 1..])) + multiset{f(t[j])}
  {
    MapSeqSplit(f, t, j);
    MapSeqConcat(f, t[..j], t[j + 1..]);
    MultisetMiddle(MapSeq(f, t[..j]), f(t[j]), MapSeq(f, t[j + 1..]));
  }

  /** Mapping a reordered list gives a reordering of the mapped list. */
  lemma {:induction false} MapSeqPermutation<A, B>(f: A -> B, s: seq<A>, t: seq<A>)
    requires multiset(s) == multiset(t)
    ensures multiset(MapSeq(f, s)) == multiset(MapSeq(f, t))
  {
    if s != [] {
      var n := |s| - 1;
      var x := s[n];
      assert s == s[..n] + [x];
      assert x in multiset(t);
      var j :| 0 <= j < |t| && t[j] == x;
      MultisetRemove(t, j);
      assert multiset(s[..n]) == multiset(s) - multiset{x};
      MapSeqPermutation(f, s[..n], t[..j] + t[j + 1..]);
      MapSeqRemove(f, t, j);
    } else {
      assert t == [];
    }
  }

  lemma KeysLength<V>(r: seq<Entry<V>>)
    ensures |Keys(r)| == |r|
    ensures forall i :: 0 <= i < |r| ==> Keys(r)[i] == r[i].key
  {
    if r != [] {
      KeysLength(r[1..]);
    }
  }

  lemma ValuesLength<V>(r: seq<Entry<V>>)
    ensures |Values(r)| == |r|
    ensures forall i :: 0 <= i < |r| ==> Values(r)[i] == r[i].value
  {
    if r != [] {
      ValuesLength(r[1..]);
    }
  }

  /** Assigning keeps the key order, appending a key that was not there. */
  lemma {:induction false} PutKeys<V>(r: seq<Entry<V>>, k: string, v: V)
    ensures Keys(Put(r, k, v)) == if k in Keys(r) then Keys(r) else Keys(r) + [k]
  {
    if r != [] && r[0].key != k {
      PutKeys(r[1..], k, v);
      assert Keys(r) == [r[0].key] + Keys(r[1..]);
    }
  }

  /** Reading after assigning sees the new value at `k` and nothing else changed. */
  lemma {:induction false} PutLookup<V>(r: seq<Entry<V>>, k: string, v: V, j: string)
    ensures Lookup(Put(r, k, v), j) == if j == k then Some(v) else Lookup(r, j)
  {
    if r != [] && r[0].key != k {
      PutLookup(r[1..], k, v, j);
    }
  }

  lemma {:induction false} LookupKeys<V>(r: seq<Entry<V>>, k: string)
    ensures Lookup(r, k).Some? <==> k in Keys(r)
  {
    if r != [] {
      LookupKeys(r[1..], k);
    }
  }

  /** With distinct keys, the entry found at position `i` is what `Lookup` returns. */
  lemma {:induction false} LookupAt<V>(r: seq<Entry<V>>, i: nat)
    requires Distinct(Keys(r)) && i < |r|
    ensures Lookup(r, r[i].key) == Some(r[i].value)
  {
    KeysLength(r);
    if i > 0 {
      KeysLength(r[1..]);
      assert Keys(r) == [r[0].key] + Keys(r[1..]);
      assert Keys(r)[0] != Keys(r)[i];
      assert Distinct(Keys(r[1..])) by {
        forall a, b | 0 <= a < b < |Keys(r[1..])|
          ensures Keys(r[1..])[a] != Keys(r[1..])[b]
        {
          assert Keys(r[1..])[a] == Keys(r)[a + 1];
          assert Keys(r[1..])[b] == Keys(r)[b + 1];
        }
      }
      LookupAt(r[1..], i - 1);
    }
  }

  /** Incrementing raises the total of all counters by exactly one. */
  lemma {:induction false} SumIncrement(r: seq<Entry<nat>>, k: string)
    ensures SumValues(Increment(r, k)) == SumValues(r) + 1
  {
    if r != [] && r[0].key != k {
      SumIncrement(r[1..], k);
      assert Increment(r, k) == [r[0]] + Increment(r[1..], k);
    }
  }

  lemma {:induction false} FirstOccurrencesDistinct(s: seq<string>)
    ensures Distinct(FirstOccurrences(s))
  {
    if s != [] {
      var n := |s| - 1;
      var p := FirstOccurrences(s[..n]);
      FirstOccurrencesDistinct(s[..n]);
      if s[n] !in p {
        var r := p + [s[n]];
        forall i, j | 0 <= i < j < |r| ensures r[i] != r[j] {
          if j == |p| {
            assert r[i] == p[i];
          } else {
            assert r[i] == p[i] && r[j] == p[j];
          }
        }
      }
    }
  }

  lemma {:induction false} FirstOccurrencesOrdered(s: seq<string>)
    ensures forall i, j :: 0 <= i < j < |FirstOccurrences(s)| ==>
      FirstIndex(s, FirstOccurrences(s)[i]) < FirstIndex(s, FirstOccurrences(s)[j])
  {
    if s != [] {
      var n := |s| - 1;
      var p := FirstOccurrences(s[..n]);
      var r := FirstOccurrences(s);
      FirstOccurrencesOrdered(s[..n]);
      forall i, j | 0 <= i < j < |r|
        ensures FirstIndex(s, r[i]) < FirstIndex(s, r[j])
      {
        assert r[i] == p[i];
        assert FirstIndex(s, r[i]) == FirstIndex(s[..n], p[i]);
        if j < |p| {
          assert r[j] == p[j];
          assert FirstIndex(s, r[j]) == FirstIndex(s[..n], p[j]);
        } else {
          assert r[j] == s[n] && s[n] !in s[..n];
        }
      }
    }
  }

  /** The reference order lists each distinct element exactly once, ordered
      by first occurrence. */
  lemma FirstOccurrencesSpec(s: seq<string>)
    ensures forall x :: x in FirstOccurrences(s) <==> x in s
    ensures Distinct(FirstOccurrences(s))
    ensures forall i, j :: 0 <= i < j < |FirstOccurrences(s)| ==>
      FirstIndex(s, FirstOccurrences(s)[i]) < FirstIndex(s, FirstOccurrences(s)[j])
  {
    FirstOccurrencesDistinct(s);
    FirstOccurrencesOrdered(s);
  }

  /** A list without repetitions has as many elements as its set. */
  lemma {:induction false} DistinctCard(s: seq<string>)
    requires Distinct(s)
    ensures |set x | x in s| == |s|
  {
    if s != [] {
      var n := |s| - 1;
      DistinctCard(s[..n]);
      assert s == s[..n] + [s[n]];
      assert (set x | x in s) == (set x | x in s[..n]) + {s[n]};
      assert s[n] !in s[..n];
    }
  }

  /** The counters are keyed in first-occurrence order. */
  lemma {:induction false} TallyKeys(ks: seq<string>)
    ensures Keys(Tally(ks)) == FirstOccurrences(ks)
  {
    if ks != [] {
      var n := |ks| - 1;
      TallyKeys(ks[..n]);
      PutKeys(Tally(ks[..n]), ks[n], Lookup(Tally(ks[..n]), ks[n]).GetOr(0) + 1);
    }
  }

  /** Each key present counts its occurrences; absent keys never occurred. */
  lemma {:induction false} TallyLookup(ks: seq<string>, k: string)
    ensures Lookup(Tally(ks), k) == if k in ks then Some(multiset(ks)[k]) else None
  {
    if ks != [] {
      var n := |ks| - 1;
      var t := Tally(ks[..n]);
      assert ks == ks[..n] + [ks[n]];
      TallyLookup(ks[..n], k);
      TallyLookup(ks[..n], ks[n]);
      PutLookup(t, ks[n], Lookup(t, ks[n]).GetOr(0) + 1, k);
    }
  }

  /** The counters add up to the number of keys counted. */
  lemma {:induction false} TallySum(ks: seq<string>)
    ensures SumValues(Tally(ks)) == |ks|
  {
    if ks != [] {
      TallySum(ks[..|ks| - 1]);
      SumIncrement(Tally(ks[..|ks| - 1]), ks[|ks| - 1]);
    }
  }

  /** Everything about a tally at once: keys distinct and in first-occurrence
      order, one entry per distinct key, each counter its key's multiplicity
      (hence at least one), counters summing to the number of keys. */
  lemma TallySpec(ks: seq<string>)
    ensures Keys(Tally(ks)) == FirstOccurrences(ks)
    ensures Distinct(Keys(Tally(ks)))
    ensures |Tally(ks)| == |set k | k in ks|
    ensures forall i :: 0 <= i < |Tally(ks)| ==>
      Tally(ks)[i].key in ks && Tally(ks)[i].value == multiset(ks)[Tally(ks)[i].key] >= 1
    ensures SumValues(Tally(ks)) == |ks|
  {
    var t := Tally(ks);
    TallyKeys(ks);
    FirstOccurrencesDistinct(ks);
    KeysLength(t);
    DistinctCard(Keys(t));
    assert (set k | k in ks) == (set k | k in Keys(t));
    forall i | 0 <= i < |t|
      ensures t[i].key in ks && t[i].value == multiset(ks)[t[i].key] >= 1
    {
      assert Keys(t)[i] == t[i].key;
      LookupAt(t, i);
      TallyLookup(ks, t[i].key);
    }
    TallySum(ks);
  }
}
