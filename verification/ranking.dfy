/** Tally-and-rank, the aggregation behind both `Counter(titles).most_common(5)`
    (plan recommendations) and the quiz leaderboard: accumulate a weight per
    key in a dict (keys kept in first-seen order), sort the pairs by weight,
    descending and stable, and keep the first n. */
module Ranking {
  import opened Values

  /** A key with its accumulated weight and the index of its first occurrence. */
  datatype Entry<K> = Entry(key: K, weight: int, first: nat)

  // ----- Reference definitions -----

  /** Sum of the weights paired with `k`. */
  function Total<K(==)>(items: seq<(K, int)>, k: K): int {
    if |items| == 0 then 0
    else Total(items[..|items| - 1], k) + (if items[|items| - 1].0 == k then items[|items| - 1].1 else 0)
  }

  /** `i` is the index of the first occurrence of `k`. */
  ghost predicate IsFirst<K>(items: seq<(K, int)>, k: K, i: nat) {
    i < |items| && items[i].0 == k && forall j :: 0 <= j < i ==> items[j].0 != k
  }

  /** Ranking order: heavier first, and among equal weights the key seen first. */
  predicate Before<K(==)>(a: Entry<K>, b: Entry<K>) {
    a.weight > b.weight || (a.weight == b.weight && a.first < b.first)
  }

  ghost predicate Ranked<K>(r: seq<Entry<K>>) {
    forall i, j :: 0 <= i < j < |r| ==> Before(r[i], r[j])
  }

  /** Each entry of `acc` is a key of `items` with its total weight and first
      position. */
  ghost predicate Faithful<K>(acc: seq<Entry<K>>, items: seq<(K, int)>) {
    forall i :: 0 <= i < |acc| ==>
      IsFirst(items, acc[i].key, acc[i].first) && acc[i].weight == Total(items, acc[i].key)
  }

  /** `acc` is the per-key summary of `items`: faithful entries, one per
      distinct key, in first-seen order, and every key of `items` present. */
  ghost predicate Summarises<K(!new)>(acc: seq<Entry<K>>, items: seq<(K, int)>) {
    && Faithful(acc, items)
    && (forall i, j :: 0 <= i < j < |acc| ==> acc[i].first < acc[j].first)
    && (forall k :: Occurs(items, k) ==> HasKey(acc, k))
  }

  /** `k` is the key of some item. */
  ghost predicate Occurs<K>(items: seq<(K, int)>, k: K) {
    exists j :: 0 <= j < |items| && items[j].0 == k
  }

  /** `k` is the key of some entry. */
  ghost predicate HasKey<K>(acc: seq<Entry<K>>, k: K) {
    exists i :: 0 <= i < |acc| && acc[i].key == k
  }

  // ----- The dict accumulation -----

  function IndexOfKey<K(==)>(acc: seq<Entry<K>>, k: K): (r: Option<nat>)
    ensures r.Some? ==> r.value < |acc| && acc[r.value].key == k
    ensures r.None? ==> forall i :: 0 <= i < |acc| ==> acc[i].key != k
  {
    if |acc| == 0 then None
    else if acc[0].key == k then Some(0)
    else match IndexOfKey(acc[1..], k)
      case None => None
      case Some(p) => Some(p + 1)
  }

  /** `d[k] = d.get(k, 0) + w` on a dict that remembers insertion order;
      `at` is the position of the item in the stream. */
  function AddTo<K(==)>(acc: seq<Entry<K>>, k: K, w: int, at: nat): seq<Entry<K>> {
    match IndexOfKey(acc, k)
    case Some(p) => acc[p := acc[p].(weight := acc[p].weight + w)]
    case None => acc + [Entry(k, w, at)]
  }

  /** The dict after the loop over all items. */
  function Accumulate<K(==)>(items: seq<(K, int)>): seq<Entry<K>> {
    if |items| == 0 then []
    else
      var n := |items| - 1;
      AddTo(Accumulate(items[..n]), items[n].0, items[n].1, n)
  }

  lemma {:induction false} TotalAbsent<K>(items: seq<(K, int)>, k: K)
    requires forall j :: 0 <= j < |items| ==> items[j].0 != k
    ensures Total(items, k) == 0
  {
    if |items| > 0 {
      TotalAbsent(items[..|items| - 1], k);
    }
  }

  /** A first occurrence stays first when the stream grows. */
  lemma FirstInPrefix<K>(items: seq<(K, int)>, n: nat, k: K, i: nat)
    requires n <= |items| && IsFirst(items[..n], k, i)
    ensures IsFirst(items, k, i)
  {
    assert forall j :: 0 <= j < i ==> items[j] == items[..n][j];
  }

  /** Adding to a key that is already present keeps the summary. */
  lemma {:induction false} AddToPresent<K(!new)>(a: seq<Entry<K>>, items: seq<(K, int)>, q: nat)
    requires |items| > 0 && Summarises(a, items[..|items| - 1])
    requires q < |a| && a[q].key == items[|items| - 1].0
    ensures Summarises(a[q := a[q].(weight := a[q].weight + items[|items| - 1].1)], items)
  {
    var n := |items| - 1;
    var p := items[..n];
    var x := items[n];
    var r := a[q := a[q].(weight := a[q].weight + x.1)];
    forall i | 0 <= i < |r|
      ensures IsFirst(items, r[i].key, r[i].first) && r[i].weight == Total(items, r[i].key)
    {
      FirstInPrefix(items, n, a[i].key, a[i].first);
    }
    forall k | Occurs(items, k) ensures HasKey(r, k) {
      var j :| 0 <= j < |items| && items[j].0 == k;
      if j < n {
        assert p[j].0 == k;
        assert Occurs(p, k);
        var i :| 0 <= i < |a| && a[i].key == k;
        assert r[i].key == k;
      } else {
        assert r[q].key == k;
      }
    }
  }

  /** Adding a key seen for the first time appends it, and keeps the summary. */
  lemma {:induction false} AddToAbsent<K(!new)>(a: seq<Entry<K>>, items: seq<(K, int)>)
    requires |items| > 0 && Summarises(a, items[..|items| - 1])
    requires forall i :: 0 <= i < |a| ==> a[i].key != items[|items| - 1].0
    ensures Summarises(a + [Entry(items[|items| - 1].0, items[|items| - 1].1, |items| - 1)], items)
  {
    var n := |items| - 1;
    var p := items[..n];
    var x := items[n];
    var r := a + [Entry(x.0, x.1, n)];
    assert !HasKey(a, x.0);
    assert !Occurs(p, x.0);
    TotalAbsent(p, x.0);
    forall i | 0 <= i < |a|
      ensures IsFirst(items, r[i].key, r[i].first) && r[i].weight == Total(items, r[i].key)
    {
      FirstInPrefix(items, n, a[i].key, a[i].first);
    }
    assert IsFirst(items, x.0, n);
    forall k | Occurs(items, k) ensures HasKey(r, k) {
      var j :| 0 <= j < |items| && items[j].0 == k;
      if j < n {
        assert p[j].0 == k;
        assert Occurs(p, k);
        var i :| 0 <= i < |a| && a[i].key == k;
        assert r[i].key == k;
      } else {
        assert r[|a|].key == k;
      }
    }
  }

  /** The accumulated dict is the per-key summary of the stream. */
  lemma {:induction false} AccumulateSummarises<K(!new)>(items: seq<(K, int)>)
    ensures Summarises(Accumulate(items), items)
  {
    if |items| > 0 {
      var n := |items| - 1;
      AccumulateSummarises(items[..n]);
      var a := Accumulate(items[..n]);
      match IndexOfKey(a, items[n].0) {
        case Some(q) => AddToPresent(a, items, q);
        case None => AddToAbsent(a, items);
      }
    }
  }

  // ----- The stable descending sort -----

  /** Insert `x`, which precedes every element of `l` in the input, in front
      of the first element that is not heavier: ties keep input order. */
  function Insert<K(==)>(x: Entry<K>, l: seq<Entry<K>>): seq<Entry<K>> {
    if |l| == 0 || x.weight >= l[0].weight then [x] + l else [l[0]] + Insert(x, l[1..])
  }

  /** `sorted(l, key=weight, reverse=True)` (a stable sort). */
  function SortDesc<K(==)>(l: seq<Entry<K>>): seq<Entry<K>> {
    if |l| == 0 then [] else Insert(l[0], SortDesc(l[1..]))
  }

  /** Inserting adds `x` and nothing else. */
  lemma {:induction false} InsertMembers<K>(x: Entry<K>, l: seq<Entry<K>>)
    ensures forall e :: e in Insert(x, l) ==> e == x || e in l
  {
    if |l| > 0 && x.weight < l[0].weight {
      InsertMembers(x, l[1..]);
      assert forall e :: e in l[1..] ==> e in l;
    }
  }

  /** Inserting permutes `l` plus `x`. */
  lemma {:induction false} InsertPermutes<K>(x: Entry<K>, l: seq<Entry<K>>)
    ensures multiset(Insert(x, l)) == multiset(l) + multiset{x}
  {
    if |l| > 0 && x.weight < l[0].weight {
      InsertPermutes(x, l[1..]);
      assert l == [l[0]] + l[1..];
    }
  }

  lemma {:induction false} InsertRanked<K>(x: Entry<K>, l: seq<Entry<K>>)
    requires Ranked(l)
    requires forall i :: 0 <= i < |l| ==> x.first < l[i].first
    ensures Ranked(Insert(x, l))
    ensures multiset(Insert(x, l)) == multiset(l) + multiset{x}
  {
    InsertPermutes(x, l);
    if |l| == 0 || x.weight >= l[0].weight {
      forall j | 0 < j < |l| ensures Before(x, l[j]) {
        assert Before(l[0], l[j]);
      }
    } else {
      var rest := Insert(x, l[1..]);
      InsertRanked(x, l[1..]);
      InsertMembers(x, l[1..]);
      forall j | 0 <= j < |rest| ensures Before(l[0], rest[j]) {
        assert rest[j] in rest;
        if rest[j] != x {
          var k :| 0 <= k < |l[1..]| && l[1..][k] == rest[j];
          assert Before(l[0], l[k + 1]);
        }
      }
    }
  }


  /** Sorting a stream of entries with increasing first positions yields the
      ranking order, and loses or adds nothing. */
  lemma {:induction false} SortDescRanked<K>(l: seq<Entry<K>>)
    requires forall i, j :: 0 <= i < j < |l| ==> l[i].first < l[j].first
    ensures Ranked(SortDesc(l))
    ensures multiset(SortDesc(l)) == multiset(l)
  {
    if |l| > 0 {
      var tail := SortDesc(l[1..]);
      SortDescRanked(l[1..]);
      forall i | 0 <= i < |tail| ensures l[0].first < tail[i].first {
        assert tail[i] in multiset(l[1..]);
        var k :| 0 <= k < |l[1..]| && l[1..][k] == tail[i];
        assert l[k + 1] == tail[i];
      }
      InsertRanked(l[0], tail);
      assert l == [l[0]] + l[1..];
      assert multiset(l) == multiset{l[0]} + multiset(l[1..]);
    }
  }

  // ----- Top n -----

  function Min(a: nat, b: nat): nat {
    if a < b then a else b
  }

  /** The first `n` of the sorted per-key summary of `items`. */
  function Top<K(==)>(items: seq<(K, int)>, n: nat): seq<Entry<K>> {
    var sorted := SortDesc(Accumulate(items));
    sorted[..Min(n, |sorted|)]
  }

  /** `k` is not the key of any entry of `r`. */
  ghost predicate Omitted<K>(r: seq<Entry<K>>, k: K) {
    forall i :: 0 <= i < |r| ==> r[i].key != k
  }

  /** The sorted summary ranks every key of the stream, each with its total
      weight and first position. */
  lemma SortedSummary<K(!new)>(items: seq<(K, int)>)
    ensures var s := SortDesc(Accumulate(items));
      Ranked(s) && Faithful(s, items) && forall k :: Occurs(items, k) ==> HasKey(s, k)
  {
    var a := Accumulate(items);
    var s := SortDesc(a);
    AccumulateSummarises(items);
    SortDescRanked(a);
    forall i | 0 <= i < |s|
      ensures IsFirst(items, s[i].key, s[i].first) && s[i].weight == Total(items, s[i].key)
    {
      assert s[i] in multiset(a);
      var q :| 0 <= q < |a| && a[q] == s[i];
    }
    forall k | Occurs(items, k) ensures HasKey(s, k) {
      var q :| 0 <= q < |a| && a[q].key == k;
      assert a[q] in multiset(s);
      var p :| 0 <= p < |s| && s[p] == a[q];
    }
  }

  /** In a ranked, faithful list no key appears twice: two entries with one
      key would share weight and first position, and neither would come
      before the other. */
  lemma RankedKeysDistinct<K>(r: seq<Entry<K>>, items: seq<(K, int)>)
    requires Ranked(r) && Faithful(r, items)
    ensures forall i, j :: 0 <= i < j < |r| ==> r[i].key != r[j].key
  {
    forall i, j | 0 <= i < j < |r| ensures r[i].key != r[j].key {
      assert Before(r[i], r[j]);
      assert IsFirst(items, r[i].key, r[i].first) && IsFirst(items, r[j].key, r[j].first);
    }
  }

  /** A key of a ranked list that a prefix leaves out sits after the prefix,
      so every kept entry comes before it. */
  lemma PrefixOmits<K>(s: seq<Entry<K>>, m: nat, items: seq<(K, int)>, j: nat)
    requires Ranked(s) && Faithful(s, items) && m <= |s|
    requires j < |items| && HasKey(s, items[j].0) && Omitted(s[..m], items[j].0)
    ensures m < |s|
    ensures forall i :: 0 <= i < m ==>
      s[i].weight >= Total(items, items[j].0)
      && (s[i].weight == Total(items, items[j].0) ==> s[i].first < j)
  {
    var p :| 0 <= p < |s| && s[p].key == items[j].0;
    forall i | 0 <= i < m ensures s[i].key != items[j].0 {
      assert s[..m][i] == s[i];
    }
    assert m <= p;
    assert IsFirst(items, s[p].key, s[p].first);
    assert s[p].first <= j && s[p].weight == Total(items, items[j].0);
    forall i | 0 <= i < m
      ensures s[i].weight >= Total(items, items[j].0)
      ensures s[i].weight == Total(items, items[j].0) ==> s[i].first < j
    {
      assert i < p;
      assert Before(s[i], s[p]);
    }
  }

  /** What the top-n list is, independent of how it is computed:
      at most n entries, distinct keys, each with its total weight and first
      position; heavier first and, on equal weight, seen first; and every key
      left out of the list leaves it full, weighs no more than any key kept,
      and on equal weight was seen after it. */
  lemma TopSpec<K(!new)>(items: seq<(K, int)>, n: nat)
    ensures var r := Top(items, n);
      && |r| <= n
      && Ranked(r)
      && Faithful(r, items)
      && (forall i, j :: 0 <= i < j < |r| ==> r[i].key != r[j].key)
      && forall j :: 0 <= j < |items| && Omitted(r, items[j].0) ==>
           && |r| == n
           && forall i :: 0 <= i < |r| ==>
                r[i].weight >= Total(items, items[j].0)
                && (r[i].weight == Total(items, items[j].0) ==> r[i].first < j)
  {
    var s := SortDesc(Accumulate(items));
    var m := Min(n, |s|);
    var r := Top(items, n);
    assert r == s[..m];
    SortedSummary(items);
    assert Ranked(r) && Faithful(r, items) by {
      assert forall i :: 0 <= i < |r| ==> r[i] == s[i];
    }
    RankedKeysDistinct(r, items);
    forall j | 0 <= j < |items| && Omitted(r, items[j].0)
      ensures |r| == n
      ensures forall i :: 0 <= i < |r| ==>
                r[i].weight >= Total(items, items[j].0)
                && (r[i].weight == Total(items, items[j].0) ==> r[i].first < j)
    {
      assert Occurs(items, items[j].0);
      PrefixOmits(s, m, items, j);
    }
  }

  /** The keys of a ranked list, in order. */
  function Keys<K(==)>(r: seq<Entry<K>>): (ks: seq<K>)
    ensures |ks| == |r|
    ensures forall i :: 0 <= i < |r| ==> ks[i] == r[i].key
  {
    if |r| == 0 then [] else [r[0].key] + Keys(r[1..])
  }
  /** Ties keep first-seen order and counts decide the rest:
      `Counter(["Go", "Python", "Python", "Rust"]).most_common(2)` is
      `[("Python", 2), ("Go", 1)]`. */
  lemma TopExample()
    ensures Top([("Go", 1), ("Python", 1), ("Python", 1), ("Rust", 1)], 2)
      == [Entry("Python", 2, 1), Entry("Go", 1, 0)]
  {
    var items := [("Go", 1), ("Python", 1), ("Python", 1), ("Rust", 1)];
    assert items[..3][..2][..1] == [("Go", 1)];
    assert Accumulate([("Go", 1)]) == [Entry("Go", 1, 0)];
    assert Accumulate(items[..3][..2]) == [Entry("Go", 1, 0), Entry("Python", 1, 1)];
    var two := [Entry("Go", 1, 0), Entry("Python", 1, 1)];
    assert two[1..] == [Entry("Python", 1, 1)];
    assert "Go" != "Python" && "Go" != "Rust" && "Python" != "Rust";
    assert IndexOfKey(two, "Python") == Some(1);
    assert items[..3][2] == ("Python", 1);
    assert Accumulate(items[..3]) == [Entry("Go", 1, 0), Entry("Python", 2, 1)];
    var a := [Entry("Go", 1, 0), Entry("Python", 2, 1), Entry("Rust", 1, 3)];
    assert IndexOfKey(a[..2], "Rust") == None;
    assert Accumulate(items) == a;
    assert SortDesc(a[2..]) == [Entry("Rust", 1, 3)];
    assert SortDesc(a[1..]) == [Entry("Python", 2, 1), Entry("Rust", 1, 3)];
    assert SortDesc(a) == [Entry("Python", 2, 1), Entry("Go", 1, 0), Entry("Rust", 1, 3)];
  }
}
