/** A list with distinct keys, read as a map. */
module Keyed {
  import opened Lists

  function ByKey<V, K, W>(s: seq<V>, key: V -> K, val: V -> W): map<K, W> {
    if s == [] then map[]
    else ByKey(s[..|s| - 1], key, val)[key(s[|s| - 1]) := val(s[|s| - 1])]
  }

  lemma {:induction false} ByKeyAppend<V, K, W>(s: seq<V>, x: V, key: V -> K, val: V -> W)
    ensures ByKey(s + [x], key, val) == ByKey(s, key, val)[key(x) := val(x)]
  {
    assert (s + [x])[..|s|] == s;
  }

  lemma {:induction false} AddedSize<K, W>(m: map<K, W>, k: K, w: W)
    requires k !in m
    ensures |m[k := w]| == |m| + 1
  {
    assert m[k := w].Keys == m.Keys + {k};
  }

  lemma {:induction false} MapExt<K, W>(a: map<K, W>, b: map<K, W>)
    requires forall k :: k in a <==> k in b
    requires forall k :: k in a ==> a[k] == b[k]
    ensures a == b
  {
  }

  function First<K, W>(k: K, w: W): K { k }

  lemma {:induction false} DistinctPrefix<V, K>(s: seq<V>, key: V -> K, n: nat)
    requires DistinctKeys(s, key) && n <= |s|
    ensures DistinctKeys(s[..n], key)
  {
    forall i, j | 0 <= i < j < n
      ensures key(s[..n][i]) != key(s[..n][j])
    {
      assert key(s[i]) != key(s[j]);
    }
  }

  /** The map has the keys of the list, and each row's value under its key. */
  lemma {:induction false} ByKeyRows<V, K, W>(s: seq<V>, key: V -> K, val: V -> W)
    requires DistinctKeys(s, key)
    ensures forall i :: 0 <= i < |s| ==> key(s[i]) in ByKey(s, key, val) && ByKey(s, key, val)[key(s[i])] == val(s[i])
    ensures forall k :: k in ByKey(s, key, val) <==> HasKey(s, key, k)
    ensures |ByKey(s, key, val)| == |s|
  {
    if s != [] {
      var t, x := s[..|s| - 1], s[|s| - 1];
      DistinctPrefix(s, key, |s| - 1);
      ByKeyRows(t, key, val);
      LastKeyNew(s, key);
      assert !HasKey(t, key, key(x));
      assert key(x) !in ByKey(t, key, val);
      AddedSize(ByKey(t, key, val), key(x), val(x));
      forall k | HasKey(s, key, k)
        ensures k in ByKey(s, key, val)
      {
        var i :| 0 <= i < |s| && key(s[i]) == k;
        assert i < |t| ==> key(t[i]) == k;
      }
      forall k | k in ByKey(s, key, val)
        ensures HasKey(s, key, k)
      {
        if k != key(x) {
          assert HasKey(t, key, k);
          var i :| 0 <= i < |t| && key(t[i]) == k;
          assert key(s[i]) == k;
        }
      }
    }
  }

  lemma {:induction false} WithoutSubDistinct<V, K, L>(s: seq<V>, key: V -> K, other: V -> L, l: L)
    requires DistinctKeys(s, key)
    ensures DistinctKeys(Without(s, other, l), key)
  {
    hide Kept;
    WithoutKeepsOrder(s, other, l);
    var w, p := Without(s, other, l), Kept(s, other, l);
    forall i, j | 0 <= i < j < |w|
      ensures key(w[i]) != key(w[j])
    {
      assert p[i] < p[j];
      assert key(s[p[i]]) != key(s[p[j]]);
    }
  }

  /** A row that is taken out leaves the map, whichever key it was taken out by; `f` computes that
      key from the row's own key and value. */
  lemma {:induction false} ByKeyWithout<V, K, W, L>(s: seq<V>, key: V -> K, val: V -> W, other: V -> L, l: L,
                                                    f: (K, W) -> L)
    requires DistinctKeys(s, key)
    requires forall v :: v in s ==> other(v) == f(key(v), val(v))
    ensures DistinctKeys(Without(s, other, l), key)
    ensures forall k :: k in ByKey(Without(s, other, l), key, val) <==>
                        k in ByKey(s, key, val) && f(k, ByKey(s, key, val)[k]) != l
    ensures forall k :: k in ByKey(Without(s, other, l), key, val) ==>
                          ByKey(Without(s, other, l), key, val)[k] == ByKey(s, key, val)[k]
  {
    hide ByKey, Without, DistinctKeys;
    WithoutSubDistinct(s, key, other, l);
    WithoutMembers(s, other, l);
    var m, r := ByKey(s, key, val), Without(s, other, l);
    var w := ByKey(r, key, val);
    ByKeyRows(s, key, val);
    ByKeyRows(r, key, val);
    forall k | k in w
      ensures k in m && f(k, m[k]) != l && w[k] == m[k]
    {
      assert HasKey(r, key, k);
      var i :| 0 <= i < |r| && key(r[i]) == k;
      assert r[i] in s;
      var j :| 0 <= j < |s| && s[j] == r[i];
      assert w[key(r[i])] == val(r[i]) && m[key(s[j])] == val(s[j]);
    }
    forall k | k in m && f(k, m[k]) != l
      ensures k in w
    {
      assert HasKey(s, key, k);
      var i :| 0 <= i < |s| && key(s[i]) == k;
      assert m[key(s[i])] == val(s[i]);
      assert s[i] in r;
      var j :| 0 <= j < |r| && r[j] == s[i];
      assert key(r[j]) in w;
    }
  }

  lemma {:induction false} WithoutOne<V, K>(x: V, key: V -> K, k: K)
    ensures Without([x], key, k) == if key(x) == k then [] else [x]
  {
  }

  lemma {:induction false} LastKeyNew<V, K>(s: seq<V>, key: V -> K)
    requires DistinctKeys(s, key) && s != []
    ensures !HasKey(s[..|s| - 1], key, key(s[|s| - 1]))
  {
    var t := s[..|s| - 1];
    forall i | 0 <= i < |t|
      ensures key(t[i]) != key(s[|s| - 1])
    {
      assert key(s[i]) != key(s[|s| - 1]);
    }
  }

  /** Replacing a row by one of the same key. */
  lemma {:induction false} ByKeyUpdate<V, K, W>(s: seq<V>, i: nat, x: V, key: V -> K, val: V -> W)
    requires i < |s| && DistinctKeys(s, key) && key(x) == key(s[i])
    ensures DistinctKeys(s[i := x], key)
    ensures ByKey(s[i := x], key, val) == ByKey(s, key, val)[key(x) := val(x)]
  {
    if i < |s| - 1 {
      var t, y := s[..|s| - 1], s[|s| - 1];
      DistinctPrefix(s, key, |s| - 1);
      ByKeyUpdate(t, i, x, key, val);
      assert s[i := x][..|s| - 1] == t[i := x];
      assert key(s[i]) != key(s[|s| - 1]);
    } else {
      assert s[i := x][..|s| - 1] == s[..|s| - 1];
    }
    var u := s[i := x];
    forall a, b | 0 <= a < b < |u|
      ensures key(u[a]) != key(u[b])
    {
      assert key(s[a]) != key(s[b]);
    }
  }

  /** Putting a row to the back, in place of the one with its key if there is one. */
  lemma {:induction false} ByKeyPut<V, K, W>(s: seq<V>, x: V, key: V -> K, val: V -> W)
    requires DistinctKeys(s, key)
    ensures DistinctKeys(Without(s, key, key(x)) + [x], key)
    ensures ByKey(Without(s, key, key(x)) + [x], key, val) == ByKey(s, key, val)[key(x) := val(x)]
  {
    ByKeyWithout(s, key, val, key, key(x), First);
    PutDistinct(s, key, x);
    var w := Without(s, key, key(x));
    ByKeyAppend(w, x, key, val);
    var m := ByKey(s, key, val);
    assert forall k :: k in ByKey(w, key, val) <==> k in m && First(k, m[k]) != key(x);
    var a, b := ByKey(w, key, val)[key(x) := val(x)], m[key(x) := val(x)];
    assert forall k :: k in a <==> k in b;
    assert forall k :: k in a ==> a[k] == b[k];
    MapExt(a, b);
  }

  /** The positions of the rows that stay, in order: what is taken out changes neither the value nor
      the relative order of the rest. */
  function Kept<V, K(==)>(s: seq<V>, key: V -> K, k: K): seq<nat> {
    if s == [] then []
    else Kept(s[..|s| - 1], key, k) + if key(s[|s| - 1]) == k then [] else [|s| - 1]
  }

  lemma {:induction false} WithoutKeepsOrder<V, K>(s: seq<V>, key: V -> K, k: K)
    ensures var w, p := Without(s, key, k), Kept(s, key, k);
            && |w| == |p|
            && (forall i :: 0 <= i < |p| ==> p[i] < |s| && w[i] == s[p[i]])
            && (forall i, j :: 0 <= i < j < |p| ==> p[i] < p[j])
            && (forall i :: 0 <= i < |s| ==> (key(s[i]) != k <==> i in p))
  {
    if s != [] {
      var t, x := s[..|s| - 1], s[|s| - 1];
      WithoutKeepsOrder(t, key, k);
      assert s == t + [x];
      WithoutAppend(t, [x], key, k);
      WithoutOne(x, key, k);
      var p, q := Kept(t, key, k), Kept(s, key, k);
      forall i | 0 <= i < |s|
        ensures key(s[i]) != k <==> i in q
      {
        if i < |t| {
          assert s[i] == t[i];
        }
      }
    }
  }

  /** `w` holds the rows of `s` whose key is not `k`, each where the order of `s` puts it. */
  ghost predicate KeepsOrder<V(!new), K(!new)>(s: seq<V>, w: seq<V>, key: V -> K, k: K) {
    exists p: seq<nat> :: Selects(s, w, key, k, p)
  }

  ghost predicate Selects<V(!new), K(!new)>(s: seq<V>, w: seq<V>, key: V -> K, k: K, p: seq<nat>) {
    && |w| == |p|
    && (forall i :: 0 <= i < |p| ==> p[i] < |s| && w[i] == s[p[i]])
    && (forall i, j :: 0 <= i < j < |p| ==> p[i] < p[j])
    && (forall i :: 0 <= i < |s| ==> (key(s[i]) != k <==> i in p))
  }

  lemma {:induction false} WithoutIsOrdered<V(!new), K(!new)>(s: seq<V>, key: V -> K, k: K)
    ensures KeepsOrder(s, Without(s, key, k), key, k)
  {
    WithoutKeepsOrder(s, key, k);
    assert Selects(s, Without(s, key, k), key, k, Kept(s, key, k));
  }

  /** `w` is what is left of `s` when some rows are taken out. */
  ghost predicate Subsequence<V(!new)>(s: seq<V>, w: seq<V>) {
    exists p: seq<nat> :: Rises(p, |s|) && |w| == |p| && forall i :: 0 <= i < |p| ==> w[i] == s[p[i]]
  }

  ghost predicate Rises(p: seq<nat>, n: nat) {
    (forall i :: 0 <= i < |p| ==> p[i] < n) && (forall i, j :: 0 <= i < j < |p| ==> p[i] < p[j])
  }

  lemma {:induction false} WithoutIsSubsequence<V(!new), K>(s: seq<V>, key: V -> K, k: K)
    ensures Subsequence(s, Without(s, key, k))
  {
    WithoutKeepsOrder(s, key, k);
    assert Rises(Kept(s, key, k), |s|);
  }

  lemma {:induction false} SubsequenceTwice<V(!new)>(s: seq<V>, w: seq<V>, x: seq<V>)
    requires Subsequence(s, w) && Subsequence(w, x)
    ensures Subsequence(s, x)
  {
    var p: seq<nat> :| Rises(p, |s|) && |w| == |p| && forall i :: 0 <= i < |p| ==> w[i] == s[p[i]];
    var q: seq<nat> :| Rises(q, |w|) && |x| == |q| && forall i :: 0 <= i < |q| ==> x[i] == w[q[i]];
    var pq: seq<nat> := seq(|q|, i requires 0 <= i < |q| => p[q[i]]);
    assert Rises(pq, |s|);
  }

  /** The row is the last one, no other has its key, and the others have kept value and order. */
  ghost predicate PutLast<V(!new), K(!new)>(s: seq<V>, u: seq<V>, key: V -> K, x: V) {
    && u != [] && u[|u| - 1] == x
    && !HasKey(u[..|u| - 1], key, key(x))
    && KeepsOrder(s, u[..|u| - 1], key, key(x))
  }

  lemma {:induction false} PutIsLast<V(!new), K(!new)>(s: seq<V>, key: V -> K, x: V)
    requires DistinctKeys(s, key)
    ensures PutLast(s, Without(s, key, key(x)) + [x], key, x)
  {
    hide KeepsOrder, DistinctKeys, HasKey;
    var w := Without(s, key, key(x));
    WithoutIsOrdered(s, key, key(x));
    WithoutDistinct(s, key, key(x));
    assert (w + [x])[..|w|] == w;
  }
}
