/** The Kotlin collection operations the app leans on: `sumOf`, `filter`,
    the stable `sortedByDescending`, `takeLast`, and `groupBy` followed by
    `mapValues { sumOf }` (or a `mutableMapOf` filled entry by entry), which
    keeps its keys in order of first appearance. */
module Seqs {
  import opened Wrappers

  /** `sumOf(f)`. */
  function Sum<T>(s: seq<T>, f: T -> real): real {
    if s == [] then 0.0 else Sum(s[..|s| - 1], f) + f(s[|s| - 1])
  }

  /** Two appends in a row add a pair. */
  lemma SnocTwo<T>(a: seq<T>, x: T, y: T)
    ensures a + [x] + [y] == a + [x, y]
  {
  }

  lemma {:induction false} SumAppend<T>(a: seq<T>, b: seq<T>, f: T -> real)
    ensures Sum(a + b, f) == Sum(a, f) + Sum(b, f)
    decreases |b|
  {
    if b == [] {
      assert a + b == a;
    } else {
      assert (a + b)[..|a + b| - 1] == a + b[..|b| - 1];
      SumAppend(a, b[..|b| - 1], f);
    }
  }

  lemma SumCons<T>(x: T, s: seq<T>, f: T -> real)
    ensures Sum([x] + s, f) == f(x) + Sum(s, f)
  {
    SumAppend([x], s, f);
    assert [x][..0] == [];
  }

  lemma {:induction false} SumNonNegative<T>(s: seq<T>, f: T -> real)
    requires forall i :: 0 <= i < |s| ==> f(s[i]) >= 0.0
    ensures Sum(s, f) >= 0.0
  {
    if s != [] {
      SumNonNegative(s[..|s| - 1], f);
    }
  }

  /** `filter(p)`: the elements satisfying `p`, in their original order. */
  function Filter<T>(s: seq<T>, p: T -> bool): (r: seq<T>)
    ensures |r| <= |s|
    ensures forall i :: 0 <= i < |r| ==> r[i] in s && p(r[i])
    ensures forall i :: 0 <= i < |s| && p(s[i]) ==> s[i] in r
  {
    if s == [] then []
    else if p(s[0]) then [s[0]] + Filter(s[1..], p)
    else Filter(s[1..], p)
  }

  lemma {:induction false} FilterAppend<T>(a: seq<T>, b: seq<T>, p: T -> bool)
    ensures Filter(a + b, p) == Filter(a, p) + Filter(b, p)
  {
    if a != [] {
      assert (a + b)[0] == a[0] && (a + b)[1..] == a[1..] + b;
      FilterAppend(a[1..], b, p);
      if p(a[0]) {
        assert [a[0]] + (Filter(a[1..], p) + Filter(b, p)) == [a[0]] + Filter(a[1..], p) + Filter(b, p);
      }
    } else {
      assert a + b == b;
    }
  }

  lemma FilterSnoc<T>(s: seq<T>, x: T, p: T -> bool)
    ensures Filter(s + [x], p) == Filter(s, p) + (if p(x) then [x] else [])
  {
    FilterAppend(s, [x], p);
  }

  /** `mapNotNull(f)`: the present results of `f`, in input order. */
  function MapNotNull<T, U>(s: seq<T>, f: T -> Option<U>): (r: seq<U>)
    ensures |r| <= |s|
    ensures forall j :: 0 <= j < |s| && f(s[j]).Some? ==> f(s[j]).value in r
  {
    if s == [] then []
    else
      var rest := MapNotNull(s[1..], f);
      assert forall j :: 1 <= j < |s| ==> s[j] == s[1..][j - 1];
      match f(s[0])
      case Some(y) => [y] + rest
      case None => rest
  }

  /** Every result comes from some input element. */
  lemma {:induction false} MapNotNullFrom<T, U>(s: seq<T>, f: T -> Option<U>, i: nat)
    requires i < |MapNotNull(s, f)|
    ensures exists j :: 0 <= j < |s| && f(s[j]) == Some(MapNotNull(s, f)[i])
  {
    var rest := MapNotNull(s[1..], f);
    if f(s[0]).Some? && i == 0 {
      assert f(s[0]) == Some(MapNotNull(s, f)[0]);
    } else {
      var k := if f(s[0]).Some? then i - 1 else i;
      MapNotNullFrom(s[1..], f, k);
      var j :| 0 <= j < |s[1..]| && f(s[1..][j]) == Some(rest[k]);
      assert s[j + 1] == s[1..][j];
    }
  }

  /** Order is preserved: the results for `a + b` are those for `a`, then
      those for `b`. */
  lemma {:induction false} MapNotNullAppend<T, U>(a: seq<T>, b: seq<T>, f: T -> Option<U>)
    ensures MapNotNull(a + b, f) == MapNotNull(a, f) + MapNotNull(b, f)
  {
    if a != [] {
      assert (a + b)[1..] == a[1..] + b;
      MapNotNullAppend(a[1..], b, f);
    } else {
      assert a + b == b;
    }
  }

  /** `takeLast(n)`: the last `min(n, |s|)` elements, in order. */
  function TakeLast<T>(s: seq<T>, n: nat): (r: seq<T>)
    ensures |r| == if n < |s| then n else |s|
    ensures forall i :: 0 <= i < |r| ==> r[i] == s[|s| - |r| + i]
  {
    if n < |s| then s[|s| - n..] else s
  }

  // ---------------------------------------------------------------------
  // Stable sorting by a descending key.

  predicate SortedDesc<T>(s: seq<T>, key: T -> real) {
    forall i, j :: 0 <= i < j < |s| ==> key(s[i]) >= key(s[j])
  }

  /** Puts `x` in front of the first element whose key is not larger than
      its own, so that `x` precedes the elements it ties with. */
  function Insert<T>(x: T, t: seq<T>, key: T -> real): (r: seq<T>)
    ensures |r| == |t| + 1
    ensures multiset(r) == multiset([x] + t)
  {
    if t == [] || key(t[0]) <= key(x) then [x] + t
    else
      var r := [t[0]] + Insert(x, t[1..], key);
      assert t == [t[0]] + t[1..];
      assert multiset([x] + t) == multiset([t[0]] + ([x] + t[1..]));
      r
  }

  lemma {:induction false} InsertSorted<T>(x: T, t: seq<T>, key: T -> real)
    requires SortedDesc(t, key)
    ensures SortedDesc(Insert(x, t, key), key)
  {
    if t != [] && key(t[0]) > key(x) {
      SortedDescTail(t, key);
      InsertSorted(x, t[1..], key);
      var r := Insert(x, t, key);
      assert r[1..] == Insert(x, t[1..], key);
      InsertHeadLargest(x, t, key);
      SortedCons(r, key);
    }
  }

  /** Inserting below the head of a sorted sequence keeps that head the largest. */
  lemma InsertHeadLargest<T>(x: T, t: seq<T>, key: T -> real)
    requires SortedDesc(t, key) && t != [] && key(t[0]) > key(x)
    ensures forall j :: 0 < j < |Insert(x, t, key)| ==> key(Insert(x, t, key)[0]) >= key(Insert(x, t, key)[j])
  {
    var r := Insert(x, t, key);
    forall j | 0 < j < |r| ensures key(r[0]) >= key(r[j]) {
      assert r[j] in multiset(Insert(x, t[1..], key));
    }
  }

  lemma SortedCons<T>(s: seq<T>, key: T -> real)
    requires s != [] && SortedDesc(s[1..], key)
    requires forall j :: 0 < j < |s| ==> key(s[0]) >= key(s[j])
    ensures SortedDesc(s, key)
  {
    forall i, j | 0 < i < j < |s| ensures key(s[i]) >= key(s[j]) {
      assert s[i] == s[1..][i - 1] && s[j] == s[1..][j - 1];
    }
  }

  /** `sortedByDescending(key)`: a stable insertion sort. */
  function SortDesc<T>(s: seq<T>, key: T -> real): (r: seq<T>)
    ensures |r| == |s|
    ensures multiset(r) == multiset(s)
    ensures SortedDesc(r, key)
  {
    if s == [] then []
    else
      var t := SortDesc(s[1..], key);
      InsertSorted(s[0], t, key);
      assert s == [s[0]] + s[1..];
      Insert(s[0], t, key)
  }

  /** The elements of `s` whose key is `k`, in order. */
  function WithKey<T>(s: seq<T>, key: T -> real, k: real): seq<T> {
    if s == [] then [] else (if key(s[0]) == k then [s[0]] else []) + WithKey(s[1..], key, k)
  }

  lemma {:induction false} InsertWithKey<T>(x: T, t: seq<T>, key: T -> real, k: real)
    requires SortedDesc(t, key)
    ensures WithKey(Insert(x, t, key), key, k)
         == (if key(x) == k then [x] else []) + WithKey(t, key, k)
  {
    var r := Insert(x, t, key);
    if t == [] || key(t[0]) <= key(x) {
      assert r[0] == x && r[1..] == t;
    } else {
      SortedDescTail(t, key);
      InsertWithKey(x, t[1..], key, k);
      assert r[0] == t[0] && r[1..] == Insert(x, t[1..], key);
      assert WithKey(r, key, k) == (if key(t[0]) == k then [t[0]] else []) + WithKey(r[1..], key, k);
      assert WithKey(t, key, k) == (if key(t[0]) == k then [t[0]] else []) + WithKey(t[1..], key, k);
      if key(x) == k {
        assert key(t[0]) != k;
      }
    }
  }

  lemma SortedDescTail<T>(t: seq<T>, key: T -> real)
    requires SortedDesc(t, key) && t != []
    ensures SortedDesc(t[1..], key)
  {
    forall i, j | 0 <= i < j < |t| - 1 ensures key(t[1..][i]) >= key(t[1..][j]) {
      assert t[1..][i] == t[i + 1] && t[1..][j] == t[j + 1];
    }
  }

  /** Stability: the elements sharing a key keep their relative order. */
  lemma {:induction false} SortDescStable<T>(s: seq<T>, key: T -> real, k: real)
    ensures WithKey(SortDesc(s, key), key, k) == WithKey(s, key, k)
  {
    if s != [] {
      SortDescStable(s[1..], key, k);
      InsertWithKey(s[0], SortDesc(s[1..], key), key, k);
    }
  }

  predicate DistinctBy<T, U(==)>(s: seq<T>, g: T -> U) {
    forall i, j :: 0 <= i < j < |s| ==> g(s[i]) != g(s[j])
  }

  lemma {:induction false} InsertDistinctBy<T, U>(x: T, t: seq<T>, key: T -> real, g: T -> U)
    requires DistinctBy([x] + t, g)
    ensures DistinctBy(Insert(x, t, key), g)
  {
    if t != [] && key(t[0]) > key(x) {
      assert DistinctBy([x] + t[1..], g) by {
        forall i, j | 0 <= i < j < |[x] + t[1..]|
          ensures g(([x] + t[1..])[i]) != g(([x] + t[1..])[j])
        {
          assert ([x] + t[1..])[i] == ([x] + t)[if i == 0 then 0 else i + 1];
          assert ([x] + t[1..])[j] == ([x] + t)[j + 1];
        }
      }
      InsertDistinctBy(x, t[1..], key, g);
      var r := Insert(x, t, key);
      forall j | 0 < j < |r| ensures g(r[0]) != g(r[j]) {
        assert r[j] in multiset(Insert(x, t[1..], key));
        if r[j] != x {
          assert r[j] in t[1..];
          var m :| 0 <= m < |t[1..]| && t[1..][m] == r[j];
          assert ([x] + t)[m + 2] == r[j];
          assert ([x] + t)[1] == t[0] == r[0];
        } else {
          assert ([x] + t)[1] == t[0] == r[0];
          assert ([x] + t)[0] == x;
        }
      }
    }
  }

  /** Sorting keeps a list free of duplicates under `g`. */
  lemma {:induction false} SortDescDistinctBy<T, U>(s: seq<T>, key: T -> real, g: T -> U)
    requires DistinctBy(s, g)
    ensures DistinctBy(SortDesc(s, key), g)
  {
    if s != [] {
      DistinctByTail(s, g);
      SortDescDistinctBy(s[1..], key, g);
      var t := SortDesc(s[1..], key);
      forall j | 0 <= j < |t| ensures g(s[0]) != g(t[j]) {
        assert t[j] in multiset(s[1..]);
        var m :| 0 <= m < |s[1..]| && s[1..][m] == t[j];
        assert s[m + 1] == t[j];
      }
      DistinctByCons(s[0], t, g);
      InsertDistinctBy(s[0], t, key, g);
    }
  }

  lemma DistinctByTail<T, U>(s: seq<T>, g: T -> U)
    requires s != [] && DistinctBy(s, g)
    ensures DistinctBy(s[1..], g)
    ensures forall j :: 1 <= j < |s| ==> g(s[0]) != g(s[j])
  {
    forall i, j | 0 <= i < j < |s[1..]| ensures g(s[1..][i]) != g(s[1..][j]) {
      assert s[1..][i] == s[i + 1] && s[1..][j] == s[j + 1];
    }
  }

  lemma DistinctByCons<T, U>(x: T, t: seq<T>, g: T -> U)
    requires DistinctBy(t, g)
    requires forall j :: 0 <= j < |t| ==> g(x) != g(t[j])
    ensures DistinctBy([x] + t, g)
  {
    var r := [x] + t;
    forall i, j | 0 <= i < j < |r| ensures g(r[i]) != g(r[j]) {
      assert r[j] == t[j - 1];
      if i > 0 {
        assert r[i] == t[i - 1];
      }
    }
  }

  // ---------------------------------------------------------------------
  // Grouped sums as an association list in order of first appearance.

  function KeysOf<K>(g: seq<(K, real)>): (r: seq<K>)
    ensures |r| == |g| && forall i :: 0 <= i < |g| ==> r[i] == g[i].0
  {
    if g == [] then [] else [g[0].0] + KeysOf(g[1..])
  }

  predicate Distinct<K(==)>(s: seq<K>) {
    forall i, j :: 0 <= i < j < |s| ==> s[i] != s[j]
  }

  /** `map[k] ?: 0.0`. */
  function Lookup<K(==)>(g: seq<(K, real)>, k: K): real {
    if g == [] then 0.0 else if g[0].0 == k then g[0].1 else Lookup(g[1..], k)
  }

  /** `map[k] = (map[k] ?: 0.0) + v` on an insertion-ordered map: an existing
      key keeps its place, a new one goes last. */
  function Credit<K(==)>(g: seq<(K, real)>, k: K, v: real): seq<(K, real)> {
    if g == [] then [(k, v)]
    else if g[0].0 == k then [(k, g[0].1 + v)] + g[1..]
    else [g[0]] + Credit(g[1..], k, v)
  }

  lemma {:induction false} CreditKeys<K>(g: seq<(K, real)>, k: K, v: real)
    ensures KeysOf(Credit(g, k, v)) == if k in KeysOf(g) then KeysOf(g) else KeysOf(g) + [k]
  {
    if g != [] && g[0].0 != k {
      CreditKeys(g[1..], k, v);
      assert KeysOf(g) == [g[0].0] + KeysOf(g[1..]);
    }
  }

  lemma {:induction false} CreditLookup<K>(g: seq<(K, real)>, k: K, v: real, j: K)
    ensures Lookup(Credit(g, k, v), j) == Lookup(g, j) + (if j == k then v else 0.0)
  {
    if g != [] && g[0].0 != k {
      CreditLookup(g[1..], k, v, j);
    }
  }

  /** The keys of `pairs`, each once, in order of first appearance. */
  function FirstKeys<K(==)>(pairs: seq<(K, real)>): seq<K> {
    if pairs == [] then []
    else
      var before := FirstKeys(pairs[..|pairs| - 1]);
      var k := pairs[|pairs| - 1].0;
      if k in before then before else before + [k]
  }

  /** The sum of the values paired with `k`. */
  function SumFor<K(==)>(pairs: seq<(K, real)>, k: K): real {
    if pairs == [] then 0.0
    else SumFor(pairs[..|pairs| - 1], k) + (if pairs[|pairs| - 1].0 == k then pairs[|pairs| - 1].1 else 0.0)
  }

  /** `groupBy { key }.mapValues { sumOf { value } }` over (key, value) pairs. */
  function GroupSums<K(==)>(pairs: seq<(K, real)>): seq<(K, real)> {
    if pairs == [] then []
    else Credit(GroupSums(pairs[..|pairs| - 1]), pairs[|pairs| - 1].0, pairs[|pairs| - 1].1)
  }

  /** A further pair is credited to the groups of the earlier ones. */
  lemma GroupSumsSnoc<K>(pairs: seq<(K, real)>, p: (K, real))
    ensures GroupSums(pairs + [p]) == Credit(GroupSums(pairs), p.0, p.1)
  {
    assert (pairs + [p])[..|pairs|] == pairs;
  }

  lemma {:induction false} FirstKeysDistinct<K>(pairs: seq<(K, real)>)
    ensures Distinct(FirstKeys(pairs))
    ensures forall k :: k in FirstKeys(pairs) <==> exists i :: 0 <= i < |pairs| && pairs[i].0 == k
  {
    if pairs != [] {
      var init := pairs[..|pairs| - 1];
      FirstKeysDistinct(init);
      forall k ensures k in FirstKeys(pairs) <==> exists i :: 0 <= i < |pairs| && pairs[i].0 == k {
        if k in FirstKeys(pairs) && k != pairs[|pairs| - 1].0 {
          var i :| 0 <= i < |init| && init[i].0 == k;
          assert pairs[i] == init[i];
        }
        if exists i :: 0 <= i < |pairs| && pairs[i].0 == k {
          var i :| 0 <= i < |pairs| && pairs[i].0 == k;
          if i < |init| {
            assert init[i] == pairs[i];
          }
        }
      }
    }
  }

  /** The grouped list has one entry per distinct key, in order of first
      appearance, and each entry holds the sum of that key's values. */
  lemma {:induction false} GroupSumsSpec<K>(pairs: seq<(K, real)>)
    ensures KeysOf(GroupSums(pairs)) == FirstKeys(pairs)
    ensures Distinct(KeysOf(GroupSums(pairs)))
    ensures forall k :: Lookup(GroupSums(pairs), k) == SumFor(pairs, k)
  {
    FirstKeysDistinct(pairs);
    if pairs != [] {
      var init := pairs[..|pairs| - 1];
      var last := pairs[|pairs| - 1];
      GroupSumsSpec(init);
      CreditKeys(GroupSums(init), last.0, last.1);
      forall k ensures Lookup(GroupSums(pairs), k) == SumFor(pairs, k) {
        CreditLookup(GroupSums(init), last.0, last.1, k);
      }
    }
  }

  /** Within an entry list with distinct keys, `Lookup` finds each entry. */
  lemma {:induction false} LookupAt<K>(g: seq<(K, real)>, i: nat)
    requires i < |g| && Distinct(KeysOf(g))
    ensures Lookup(g, g[i].0) == g[i].1
  {
    if i > 0 {
      assert KeysOf(g)[0] != KeysOf(g)[i];
      assert Distinct(KeysOf(g[1..])) by {
        forall a, b | 0 <= a < b < |g[1..]| ensures KeysOf(g[1..])[a] != KeysOf(g[1..])[b] {
          assert KeysOf(g)[a + 1] != KeysOf(g)[b + 1];
        }
      }
      LookupAt(g[1..], i - 1);
    }
  }

  /** Each group is a key of the pairs, holding the sum of its values. */
  lemma GroupSumsEntry<K>(pairs: seq<(K, real)>, i: nat)
    requires i < |GroupSums(pairs)|
    ensures GroupSums(pairs)[i].1 == SumFor(pairs, GroupSums(pairs)[i].0)
    ensures exists k :: 0 <= k < |pairs| && pairs[k].0 == GroupSums(pairs)[i].0
  {
    var g := GroupSums(pairs);
    GroupSumsSpec(pairs);
    FirstKeysDistinct(pairs);
    LookupAt(g, i);
    assert KeysOf(g)[i] == g[i].0;
    assert g[i].0 in FirstKeys(pairs);
  }

  /** Each key of the pairs has its group. */
  lemma GroupSumsHas<K>(pairs: seq<(K, real)>, j: nat)
    requires j < |pairs|
    ensures exists n :: 0 <= n < |GroupSums(pairs)| && GroupSums(pairs)[n].0 == pairs[j].0
                        && GroupSums(pairs)[n].1 == SumFor(pairs, pairs[j].0)
  {
    var g := GroupSums(pairs);
    GroupSumsSpec(pairs);
    FirstKeysDistinct(pairs);
    assert pairs[j].0 in FirstKeys(pairs);
    assert pairs[j].0 in KeysOf(g);
    var n :| 0 <= n < |g| && KeysOf(g)[n] == pairs[j].0;
    LookupAt(g, n);
  }

  /** Every listed key is the key of some pair. */
  lemma FirstKeyFrom<K>(pairs: seq<(K, real)>, i: nat)
    requires i < |FirstKeys(pairs)|
    ensures exists k :: 0 <= k < |pairs| && pairs[k].0 == FirstKeys(pairs)[i]
  {
    FirstKeysDistinct(pairs);
    assert FirstKeys(pairs)[i] in FirstKeys(pairs);
  }

  /** A key listed no later than the key of pair `j` first appears at or
      before pair `j`. */
  lemma {:induction false} FirstKeysOrder<K>(pairs: seq<(K, real)>, i: nat, m: nat, j: nat)
    requires i <= m < |FirstKeys(pairs)| && j < |pairs| && pairs[j].0 == FirstKeys(pairs)[m]
    ensures exists k :: 0 <= k <= j && pairs[k].0 == FirstKeys(pairs)[i]
  {
    var init := pairs[..|pairs| - 1];
    var before := FirstKeys(init);
    var keys := FirstKeys(pairs);
    assert keys[..|before|] == before;
    if j == |pairs| - 1 {
      if i < |before| {
        FirstKeyFrom(init, i);
        var k :| 0 <= k < |init| && init[k].0 == before[i];
        assert pairs[k] == init[k] && keys[i] == before[i];
      } else {
        assert keys == before + [pairs[j].0];
      }
    } else {
      FirstKeysDistinct(init);
      FirstKeysDistinct(pairs);
      assert init[j] == pairs[j];
      assert pairs[j].0 in before;
      var n :| 0 <= n < |before| && before[n] == pairs[j].0;
      assert keys[n] == keys[m];
      FirstKeysOrder(init, i, m, j);
      var k :| 0 <= k <= j && init[k].0 == before[i];
      assert pairs[k] == init[k] && keys[i] == before[i];
    }
  }

  /** Grouping redistributes values without losing or inventing any. */
  lemma {:induction false} GroupSumsTotal<K>(pairs: seq<(K, real)>)
    ensures Sum(GroupSums(pairs), (e: (K, real)) => e.1) == Sum(pairs, (e: (K, real)) => e.1)
  {
    if pairs != [] {
      var init := pairs[..|pairs| - 1];
      var last := pairs[|pairs| - 1];
      GroupSumsTotal(init);
      CreditTotal(GroupSums(init), last.0, last.1);
    }
  }

  lemma {:induction false} CreditTotal<K>(g: seq<(K, real)>, k: K, v: real)
    ensures Sum(Credit(g, k, v), (e: (K, real)) => e.1) == Sum(g, (e: (K, real)) => e.1) + v
  {
    var val := (e: (K, real)) => e.1;
    if g == [] {
      assert Sum([(k, v)], val) == Sum([(k, v)][..0], val) + v;
    } else if g[0].0 == k {
      SumCons((k, g[0].1 + v), g[1..], val);
      SumCons(g[0], g[1..], val);
      assert g == [g[0]] + g[1..];
    } else {
      CreditTotal(g[1..], k, v);
      SumCons(g[0], Credit(g[1..], k, v), val);
      SumCons(g[0], g[1..], val);
      assert g == [g[0]] + g[1..];
    }
  }

  /** `maxByOrNull { value }`: the first entry with the largest value. */
  function FirstMax<K>(g: seq<(K, real)>): (i: nat)
    requires g != []
    ensures i < |g|
    ensures forall j :: 0 <= j < |g| ==> g[j].1 <= g[i].1
    ensures forall j :: 0 <= j < i ==> g[j].1 < g[i].1
  {
    if |g| == 1 then 0
    else
      var i := FirstMax(g[..|g| - 1]);
      if g[i].1 < g[|g| - 1].1 then |g| - 1 else i
  }
}
