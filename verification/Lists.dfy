/** Sequences used as linked lists: removal, filtering, distinct keys. */
module Lists {

  predicate NoDup<T(==)>(s: seq<T>) {
    forall i, j :: 0 <= i < j < |s| ==> s[i] != s[j]
  }

  /** The position of the first `x` in `s`. */
  function IndexOf<T(==)>(s: seq<T>, x: T): (i: nat)
    requires x in s
    ensures i < |s| && s[i] == x && x !in s[..i]
  {
    if s[0] == x then 0 else 1 + IndexOf(s[1..], x)
  }

  /** `s` without the element at position `i`. */
  function RemoveAt<T>(s: seq<T>, i: nat): (r: seq<T>)
    requires i < |s|
    ensures |r| == |s| - 1
    ensures forall j :: 0 <= j < i ==> r[j] == s[j]
    ensures forall j :: i <= j < |r| ==> r[j] == s[j + 1]
  {
    s[..i] + s[i + 1..]
  }

  /** `s` without its first `x`. */
  function Drop<T(==)>(s: seq<T>, x: T): seq<T> {
    if x in s then RemoveAt(s, IndexOf(s, x)) else s
  }

  lemma {:induction false} DropNoDup<T>(s: seq<T>, x: T)
    requires NoDup(s)
    ensures NoDup(Drop(s, x))
    ensures forall y :: y in Drop(s, x) <==> y in s && y != x
  {
    if x in s {
      var i := IndexOf(s, x);
      var d := RemoveAt(s, i);
      forall y | y in s && y != x
        ensures y in d
      {
        var k :| 0 <= k < |s| && s[k] == y;
        assert d[if k < i then k else k - 1] == y;
      }
      forall y | y in d
        ensures y in s && y != x
      {
        var k :| 0 <= k < |d| && d[k] == y;
        assert y == s[if k < i then k else k + 1];
      }
    }
  }

  /** The keys of a list are pairwise different. */
  ghost predicate DistinctKeys<V, K>(s: seq<V>, key: V -> K) {
    forall i, j :: 0 <= i < j < |s| ==> key(s[i]) != key(s[j])
  }

  predicate HasKey<V, K(==)>(s: seq<V>, key: V -> K, k: K) {
    exists i :: 0 <= i < |s| && key(s[i]) == k
  }

  /** The elements of `s`, in order, whose key is not `k`. */
  function Without<V, K(==)>(s: seq<V>, key: V -> K, k: K): seq<V> {
    if s == [] then []
    else (if key(s[0]) == k then [] else [s[0]]) + Without(s[1..], key, k)
  }

  lemma {:induction false} WithoutNone<V, K>(s: seq<V>, key: V -> K, k: K)
    requires !HasKey(s, key, k)
    ensures Without(s, key, k) == s
  {
    if s != [] {
      assert key(s[0]) != k;
      assert !HasKey(s[1..], key, k);
      WithoutNone(s[1..], key, k);
    }
  }

  lemma {:induction false} WithoutAt<V, K>(s: seq<V>, key: V -> K, i: nat)
    requires i < |s| && DistinctKeys(s, key)
    ensures Without(s, key, key(s[i])) == RemoveAt(s, i)
  {
    var k := key(s[i]);
    if i == 0 {
      assert !HasKey(s[1..], key, k);
      WithoutNone(s[1..], key, k);
    } else {
      assert key(s[0]) != k;
      WithoutAt(s[1..], key, i - 1);
      assert [s[0]] + RemoveAt(s[1..], i - 1) == RemoveAt(s, i);
    }
  }

  lemma {:induction false} WithoutAppend<V, K>(a: seq<V>, b: seq<V>, key: V -> K, k: K)
    ensures Without(a + b, key, k) == Without(a, key, k) + Without(b, key, k)
  {
    if a == [] {
      assert a + b == b;
    } else {
      assert (a + b)[1..] == a[1..] + b;
      WithoutAppend(a[1..], b, key, k);
    }
  }

  lemma {:induction false} WithoutMembers<V, K>(s: seq<V>, key: V -> K, k: K)
    ensures forall v :: v in Without(s, key, k) <==> v in s && key(v) != k
    ensures |Without(s, key, k)| <= |s|
  {
    if s != [] {
      WithoutMembers(s[1..], key, k);
    }
  }

  lemma {:induction false} WithoutDistinct<V, K>(s: seq<V>, key: V -> K, k: K)
    requires DistinctKeys(s, key)
    ensures DistinctKeys(Without(s, key, k), key)
    ensures !HasKey(Without(s, key, k), key, k)
  {
    if i :| 0 <= i < |s| && key(s[i]) == k {
      WithoutAt(s, key, i);
    } else {
      WithoutNone(s, key, k);
    }
  }

  lemma {:induction false} PutDistinct<V, K>(s: seq<V>, key: V -> K, v: V)
    requires DistinctKeys(s, key)
    ensures DistinctKeys(Without(s, key, key(v)) + [v], key)
  {
    WithoutDistinct(s, key, key(v));
    var w := Without(s, key, key(v));
    forall i | 0 <= i < |w|
      ensures key(w[i]) != key(v)
    {
    }
  }
}
