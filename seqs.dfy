/** Order-preserving filters and first-match searches over sequences: the
    `Array.prototype.filter`, `find` and `some` calls the source is made of. */
module Seqs {
  import opened Wrappers

  /** `r` is obtained from `s` by deleting elements, keeping the order of the rest. */
  ghost predicate IsSubsequence<T>(r: seq<T>, s: seq<T>)
    decreases |s|
  {
    if r == [] then true
    else if s == [] then false
    else (r[|r| - 1] == s[|s| - 1] && IsSubsequence(r[..|r| - 1], s[..|s| - 1]))
         || IsSubsequence(r, s[..|s| - 1])
  }

  /** No two elements of `s` share a key. */
  ghost predicate UniqueBy<T, K>(s: seq<T>, key: T -> K) {
    forall i, j :: 0 <= i < j < |s| ==> key(s[i]) != key(s[j])
  }

  predicate Distinct<T(==)>(s: seq<T>) {
    forall i, j :: 0 <= i < j < |s| ==> s[i] != s[j]
  }

  /** The elements of `s` that satisfy `p`, in their original order. */
  function Filter<T>(s: seq<T>, p: T -> bool): (r: seq<T>)
    ensures forall x :: x in r ==> x in s && p(x)
    ensures forall x :: x in s && p(x) ==> x in r
    ensures IsSubsequence(r, s)
  {
    if s == [] then []
    else
      var init := Filter(s[..|s| - 1], p);
      if p(s[|s| - 1]) then
        assert (init + [s[|s| - 1]])[..|init|] == init;
        init + [s[|s| - 1]]
      else init
  }

  /** The position of the first element of `s` that satisfies `p`. */
  function FirstIndex<T>(s: seq<T>, p: T -> bool): (r: Option<nat>)
    ensures r.Some? ==> r.value < |s| && p(s[r.value])
    ensures r.Some? ==> forall j :: 0 <= j < r.value ==> !p(s[j])
    ensures r.None? <==> forall j :: 0 <= j < |s| ==> !p(s[j])
  {
    if s == [] then None
    else if p(s[0]) then Some(0)
    else match FirstIndex(s[1..], p)
      case None => None
      case Some(k) => Some(k + 1)
  }

  /** The first element of `s` that satisfies `p`, as `Array.prototype.find` returns it. */
  function Find<T>(s: seq<T>, p: T -> bool): (r: Option<T>)
    ensures r.Some? ==> r.value in s && p(r.value)
    ensures r.Some? ==> exists k :: 0 <= k < |s| && s[k] == r.value && forall j :: 0 <= j < k ==> !p(s[j])
    ensures r.None? <==> forall x :: x in s ==> !p(x)
  {
    match FirstIndex(s, p)
    case None => None
    case Some(k) => Some(s[k])
  }

  /** A sequence without repetitions has as many distinct elements as positions. */
  lemma {:induction false} DistinctCardinality<T>(s: seq<T>)
    requires Distinct(s)
    ensures |set x | x in s| == |s|
  {
    if s != [] {
      var init := s[..|s| - 1];
      assert Distinct(init) by {
        forall i, j | 0 <= i < j < |init| ensures init[i] != init[j] {
          assert init[i] == s[i] && init[j] == s[j];
        }
      }
      DistinctCardinality(init);
      assert s == init + [s[|s| - 1]];
      assert s[|s| - 1] !in init;
      assert (set x | x in s) == (set x | x in init) + {s[|s| - 1]};
    }
  }

  /** A subsequence stays one when the longer sequence grows at its end. */
  lemma SubsequenceOfExtension<T>(r: seq<T>, s: seq<T>, x: T)
    requires IsSubsequence(r, s)
    ensures IsSubsequence(r, s + [x])
  {
    assert (s + [x])[..|s|] == s;
  }

  /** Deleting elements never makes two remaining elements share a key. */
  lemma {:induction false} FilterKeepsUniqueBy<T, K>(s: seq<T>, p: T -> bool, key: T -> K)
    requires UniqueBy(s, key)
    ensures UniqueBy(Filter(s, p), key)
  {
    if s != [] {
      var init := s[..|s| - 1];
      assert UniqueBy(init, key) by {
        forall i, j | 0 <= i < j < |init| ensures key(init[i]) != key(init[j]) {
          assert init[i] == s[i] && init[j] == s[j];
        }
      }
      FilterKeepsUniqueBy(init, p, key);
      var f := Filter(init, p);
      if p(s[|s| - 1]) {
        var r := f + [s[|s| - 1]];
        forall i, j | 0 <= i < j < |r| ensures key(r[i]) != key(r[j]) {
          if j == |r| - 1 {
            assert r[i] in init;
            var k :| 0 <= k < |init| && init[k] == r[i];
            assert s[k] == r[i];
          } else {
            assert r[i] == f[i] && r[j] == f[j];
          }
        }
      }
    }
  }

  /** Appending an element whose key is new keeps the keys unique. */
  lemma AppendKeepsUniqueBy<T, K>(s: seq<T>, x: T, key: T -> K)
    requires UniqueBy(s, key)
    requires forall i :: 0 <= i < |s| ==> key(s[i]) != key(x)
    ensures UniqueBy(s + [x], key)
  {
    var r := s + [x];
    forall i, j | 0 <= i < j < |r| ensures key(r[i]) != key(r[j]) {
      assert r[i] == s[i];
    }
  }

  /** `ks` lists every key of `m` exactly once: the key order of a JavaScript `Map`. */
  ghost predicate ListsKeys<K, V>(ks: seq<K>, m: map<K, V>) {
    Distinct(ks) && (forall k :: k in m ==> k in ks) && (forall k :: k in ks ==> k in m)
  }

  /** The values of `m` at the keys `ks`, in the order of `ks`. */
  function ValuesAt<K, V>(ks: seq<K>, m: map<K, V>): (r: seq<V>)
    requires forall k :: k in ks ==> k in m
    ensures |r| == |ks| && forall i :: 0 <= i < |ks| ==> r[i] == m[ks[i]]
  {
    if ks == [] then [] else ValuesAt(ks[..|ks| - 1], m) + [m[ks[|ks| - 1]]]
  }

  /** Listed in key order, the values are exactly those of the map. */
  lemma ValuesAtListsValues<K, V>(ks: seq<K>, m: map<K, V>)
    requires ListsKeys(ks, m)
    ensures forall v :: v in ValuesAt(ks, m) <==> v in m.Values
  {
    var r := ValuesAt(ks, m);
    forall v | v in m.Values ensures v in r {
      var k :| k in m && m[k] == v;
      var i :| 0 <= i < |ks| && ks[i] == k;
      assert r[i] == v;
    }
  }

  /** `Map.prototype.set` of a new key appends it to the key order. */
  lemma InsertKeepsListsKeys<K, V>(ks: seq<K>, m: map<K, V>, k: K, v: V)
    requires ListsKeys(ks, m) && k !in m
    ensures ListsKeys(ks + [k], m[k := v])
  {
    var ks' := ks + [k];
    forall i, j | 0 <= i < j < |ks'| ensures ks'[i] != ks'[j] {
      if j == |ks| {
        assert ks'[i] in ks;
      } else {
        assert ks'[i] == ks[i] && ks'[j] == ks[j];
      }
    }
  }

  /** `s` without the occurrences of `x`, the rest in order. */
  function Without<T(==)>(s: seq<T>, x: T): (r: seq<T>)
    ensures forall y :: y in r ==> y in s && y != x
    ensures forall y :: y in s && y != x ==> y in r
    ensures IsSubsequence(r, s)
  {
    Filter(s, (y: T) => y != x)
  }

  /** `Map.prototype.delete` drops the key and keeps the order of the others. */
  lemma RemoveKeepsListsKeys<K, V>(ks: seq<K>, m: map<K, V>, k: K)
    requires ListsKeys(ks, m)
    ensures ListsKeys(Without(ks, k), m - {k})
  {
    var id := (x: K) => x;
    assert UniqueBy(ks, id) by {
      forall i, j | 0 <= i < j < |ks| ensures id(ks[i]) != id(ks[j]) {
        assert ks[i] != ks[j];
      }
    }
    FilterKeepsUniqueBy(ks, (y: K) => y != k, id);
    var r := Without(ks, k);
    forall i, j | 0 <= i < j < |r| ensures r[i] != r[j] {
      assert id(r[i]) != id(r[j]);
    }
  }
}
