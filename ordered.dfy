/** The lexicographic order of `std::string` (and of the fixed-width code
    types, which compare their text), and `std::map`/`std::set` represented as
    association lists kept in key order under a strict total order, so that
    iterating one visits the keys in the order C++ does. */
module Ordered {
  import opened Wrappers

  /** `a < b` for strings: the first differing character decides, and a
      proper prefix comes first. */
  predicate StrLess(a: string, b: string)
  {
    if a == [] then b != []
    else if b == [] then false
    else if a[0] != b[0] then a[0] < b[0]
    else StrLess(a[1..], b[1..])
  }

  lemma {:induction false} StrLessIrreflexive(a: string)
    ensures !StrLess(a, a)
  {
    if a != [] {
      StrLessIrreflexive(a[1..]);
    }
  }

  lemma {:induction false} StrLessTransitive(a: string, b: string, c: string)
    requires StrLess(a, b) && StrLess(b, c)
    ensures StrLess(a, c)
  {
    if a != [] && b != [] && c != [] && a[0] == b[0] && b[0] == c[0] {
      StrLessTransitive(a[1..], b[1..], c[1..]);
    }
  }

  lemma {:induction false} StrLessTrichotomy(a: string, b: string)
    ensures a == b || StrLess(a, b) || StrLess(b, a)
  {
    if a != [] && b != [] && a[0] == b[0] {
      StrLessTrichotomy(a[1..], b[1..]);
      if a[1..] == b[1..] {
        assert a == [a[0]] + a[1..] && b == [b[0]] + b[1..];
      }
    }
  }

  /** The three laws every ordering used as a map key must obey. */
  ghost predicate StrictTotalOrder<K(!new)>(less: (K, K) -> bool)
  {
    (forall a :: !less(a, a))
    && (forall a, b, c :: less(a, b) && less(b, c) ==> less(a, c))
    && (forall a, b :: a == b || less(a, b) || less(b, a))
  }

  lemma StrLessIsOrder()
    ensures StrictTotalOrder(StrLess)
  {
    forall a ensures !StrLess(a, a) { StrLessIrreflexive(a); }
    forall a, b, c | StrLess(a, b) && StrLess(b, c) ensures StrLess(a, c) { StrLessTransitive(a, b, c); }
    forall a, b ensures a == b || StrLess(a, b) || StrLess(b, a) { StrLessTrichotomy(a, b); }
  }

  /** Concatenation regroups; stated once so that loops appending to a
      sequence need not rediscover it. */
  lemma AppendAssoc<T>(a: seq<T>, b: seq<T>, c: seq<T>)
    ensures a + (b + c) == (a + b) + c
  {
  }

  /** `a < b` on integers, the order of `std::map<int, ...>`. */
  predicate IntLess(a: int, b: int) { a < b }

  lemma IntLessIsOrder()
    ensures StrictTotalOrder(IntLess)
  {
  }

  /** Keys strictly increasing: the shape of a `std::map` in iteration order. */
  predicate Sorted<K, V>(s: seq<(K, V)>, less: (K, K) -> bool)
  {
    forall i, j :: 0 <= i < j < |s| ==> less(s[i].0, s[j].0)
  }

  function Keys<K, V>(s: seq<(K, V)>): set<K>
  {
    set i | 0 <= i < |s| :: s[i].0
  }

  lemma KeysCons<K, V>(h: (K, V), t: seq<(K, V)>)
    ensures Keys([h] + t) == {h.0} + Keys(t)
  {
    var r := [h] + t;
    assert r[0] == h;
    forall x | x in Keys(r) ensures x in {h.0} + Keys(t) {
      var i :| 0 <= i < |r| && r[i].0 == x;
      if i > 0 { assert t[i - 1].0 == x; }
    }
    forall x | x in Keys(t) ensures x in Keys(r) {
      var i :| 0 <= i < |t| && t[i].0 == x;
      assert r[i + 1].0 == x;
    }
  }

  /** `map::find`: the value stored under `k` (the first, should there be several). */
  function Lookup<K(==), V>(s: seq<(K, V)>, k: K): (r: Option<V>)
    ensures r.None? <==> k !in Keys(s)
    ensures r.Some? ==> (k, r.value) in s
  {
    if s == [] then None
    else if s[0].0 == k then Some(s[0].1)
    else
      KeysCons(s[0], s[1..]);
      assert s == [s[0]] + s[1..];
      Lookup(s[1..], k)
  }

  /** In a sorted list the entry with a given key is the one found. */
  lemma {:induction false} LookupSorted<K(!new), V>(s: seq<(K, V)>, less: (K, K) -> bool, i: nat)
    requires StrictTotalOrder(less) && Sorted(s, less) && i < |s|
    ensures Lookup(s, s[i].0) == Some(s[i].1)
  {
    if i > 0 {
      assert less(s[0].0, s[i].0);
      LookupSorted(s[1..], less, i - 1);
    }
  }

  /** A key below the first key of a sorted list is below all of them. */
  lemma BelowAll<K(!new), V>(s: seq<(K, V)>, less: (K, K) -> bool, k: K)
    requires StrictTotalOrder(less) && Sorted(s, less) && s != [] && less(k, s[0].0)
    ensures forall j :: 0 <= j < |s| ==> less(k, s[j].0)
    ensures k !in Keys(s)
  {
    forall j | 0 < j < |s| ensures less(k, s[j].0) {
      assert less(s[0].0, s[j].0);
    }
  }

  lemma ConsSorted<K(!new), V>(h: (K, V), t: seq<(K, V)>, less: (K, K) -> bool)
    requires StrictTotalOrder(less) && Sorted(t, less)
    requires forall k :: k in Keys(t) ==> less(h.0, k)
    ensures Sorted([h] + t, less)
  {
    var r := [h] + t;
    forall i, j | 0 <= i < j < |r| ensures less(r[i].0, r[j].0) {
      assert r[j] == t[j - 1];
      assert t[j - 1].0 in Keys(t);
      if i > 0 { assert r[i] == t[i - 1]; }
    }
  }

  /** `m[k].push_back(x)` on a `std::map<K, std::vector<X>>`: the vector
      under `k` (created empty if absent) gains `x` at its end. */
  function AppendAt<K(==,!new), X>(s: seq<(K, seq<X>)>, less: (K, K) -> bool, k: K, x: X): (r: seq<(K, seq<X>)>)
    requires StrictTotalOrder(less) && Sorted(s, less)
    ensures Sorted(r, less)
    ensures Keys(r) == Keys(s) + {k}
    ensures Lookup(r, k) == Some(Lookup(s, k).GetOr([]) + [x])
    ensures forall k' :: k' != k ==> Lookup(r, k') == Lookup(s, k')
  {
    Put(s, less, k, Lookup(s, k).GetOr([]) + [x])
  }

  /** `m[k] = v` on a `std::map`: the value under `k` is replaced or added, in key order. */
  function Put<K(==,!new), V>(s: seq<(K, V)>, less: (K, K) -> bool, k: K, v: V): (r: seq<(K, V)>)
    requires StrictTotalOrder(less) && Sorted(s, less)
    ensures Sorted(r, less)
    ensures Keys(r) == Keys(s) + {k}
    ensures Lookup(r, k) == Some(v)
    ensures forall k' :: k' != k ==> Lookup(r, k') == Lookup(s, k')
  {
    if s == [] then
      KeysCons((k, v), []);
      [(k, v)]
    else if s[0].0 == k then
      KeysCons(s[0], s[1..]);
      KeysCons((k, v), s[1..]);
      assert s == [s[0]] + s[1..];
      ConsSorted((k, v), s[1..], less);
      [(k, v)] + s[1..]
    else if less(k, s[0].0) then
      BelowAll(s, less, k);
      KeysCons((k, v), s);
      ConsSorted((k, v), s, less);
      [(k, v)] + s
    else
      var tail := Put(s[1..], less, k, v);
      KeysCons(s[0], s[1..]);
      KeysCons(s[0], tail);
      assert s == [s[0]] + s[1..];
      forall k' | k' in Keys(tail) ensures less(s[0].0, k') {
        if k' != k {
          var m :| 0 <= m < |s[1..]| && s[1..][m].0 == k';
          assert s[m + 1].0 == k';
        }
      }
      ConsSorted(s[0], tail, less);
      [s[0]] + tail
  }

  /** `map::insert`: `v` is stored under `k` only when `k` is absent; an
      existing entry is never overwritten. */
  function InsertIfAbsent<K(==,!new), V>(s: seq<(K, V)>, less: (K, K) -> bool, k: K, v: V): (r: seq<(K, V)>)
    requires StrictTotalOrder(less) && Sorted(s, less)
    ensures Sorted(r, less)
    ensures Keys(r) == Keys(s) + {k}
    ensures Lookup(s, k).Some? ==> r == s
    ensures Lookup(s, k).None? ==> Lookup(r, k) == Some(v)
    ensures forall k' :: k' != k ==> Lookup(r, k') == Lookup(s, k')
  {
    if Lookup(s, k).Some? then s else Put(s, less, k, v)
  }

  /** A `std::set` in iteration order: strictly increasing. */
  predicate SortedSet<K>(s: seq<K>, less: (K, K) -> bool)
  {
    forall i, j :: 0 <= i < j < |s| ==> less(s[i], s[j])
  }

  /** `set::insert`: `k` is added unless present; the order is kept. */
  function SetInsert<K(==,!new)>(s: seq<K>, less: (K, K) -> bool, k: K): (r: seq<K>)
    requires StrictTotalOrder(less) && SortedSet(s, less)
    ensures SortedSet(r, less)
    ensures forall x :: x in r <==> x in s || x == k
  {
    if s == [] then [k]
    else if s[0] == k then s
    else if less(k, s[0]) then
      assert forall j :: 0 < j < |s| ==> less(s[0], s[j]);
      [k] + s
    else
      var tail := SetInsert(s[1..], less, k);
      assert forall j :: 0 <= j < |tail| ==> less(s[0], tail[j]) by {
        forall j | 0 <= j < |tail|
          ensures less(s[0], tail[j])
        {
          assert tail[j] in tail;
          if tail[j] != k {
            var m :| 0 <= m < |s[1..]| && s[1..][m] == tail[j];
            assert s[m + 1] == tail[j];
          }
        }
      }
      [s[0]] + tail
  }

  /** `multimap::equal_range(k)`: the values under `k`, in insertion order. */
  function EqualRange<K(==,!new), V(!new)>(m: seq<(K, V)>, k: K): (r: seq<V>)
    ensures |r| <= |m|
    ensures forall v :: v in r <==> (k, v) in m
  {
    if m == [] then []
    else
      var rest := EqualRange(m[1..], k);
      assert forall p :: p in m <==> p == m[0] || p in m[1..];
      if m[0].0 == k then [m[0].1] + rest else rest
  }

  lemma {:induction false} EqualRangeAppend<K(!new), V(!new)>(m: seq<(K, V)>, extra: seq<(K, V)>, k: K)
    ensures EqualRange(m + extra, k) == EqualRange(m, k) + EqualRange(extra, k)
  {
    if m != [] {
      assert (m + extra)[1..] == m[1..] + extra;
      EqualRangeAppend(m[1..], extra, k);
    } else {
      assert m + extra == extra;
    }
  }

  /** `equal_range` after one more insertion. */
  lemma EqualRangeSnoc<K(!new), V(!new)>(m: seq<(K, V)>, p: (K, V), k: K)
    ensures EqualRange(m + [p], k) == EqualRange(m, k) + (if p.0 == k then [p.1] else [])
  {
    EqualRangeAppend(m, [p], k);
    assert [p][1..] == [];
  }
}
