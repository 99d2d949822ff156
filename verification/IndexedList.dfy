/** A `std::list` together with an `unordered_map` from a key to an iterator.

    A list node is a handle that stays the same while the node is moved, as an
    iterator does under `splice`.  `order` is the list, `nodes` what each node holds
    and `index` the map of iterators.
 */
module IndexedList {
  import opened Types
  import opened Lists

  lemma {:induction false} FrontRemoved<T>(s: seq<T>)
    requires s != []
    ensures RemoveAt(s, 0) == s[1..]
  {
  }

  datatype Indexed<V> = Indexed(order: seq<nat>, nodes: map<nat, V>, index: map<string, nat>, next: nat) {

    ghost predicate Linked() {
      forall h :: h in order ==> h in nodes
    }

    /** The index maps exactly onto the list. */
    ghost predicate Valid(key: V -> string): (valid: bool)
      ensures valid ==> Linked()
    {
      && NoDup(order)
      && (forall h :: h in order <==> h in nodes)
      && (forall h :: h in nodes ==> h < next)
      && (forall k :: k in index ==> index[k] in nodes && key(nodes[index[k]]) == k)
      && (forall h :: h in nodes ==> key(nodes[h]) in index && index[key(nodes[h])] == h)
    }

    /** What the list holds, front first. */
    function List(): (s: seq<V>)
      requires Linked()
      ensures |s| == |order|
    {
      seq(|order|, i requires 0 <= i < |order| => nodes[order[i]])
    }

    lemma {:induction false} ListKeys(key: V -> string)
      requires Valid(key)
      ensures DistinctKeys(List(), key)
      ensures forall k :: k in index <==> HasKey(List(), key, k)
      ensures forall v :: v in List() ==> key(v) in index && nodes[index[key(v)]] == v
    {
      forall i, j | 0 <= i < j < |order|
        ensures key(List()[i]) != key(List()[j])
      {
        assert order[i] in nodes && order[j] in nodes;
      }
      forall k | k in index
        ensures HasKey(List(), key, k)
      {
        var h := index[k];
        assert h in order;
        assert key(List()[IndexOf(order, h)]) == k;
      }
      forall i | 0 <= i < |order|
        ensures key(List()[i]) in index && nodes[index[key(List()[i])]] == List()[i]
      {
        assert order[i] in nodes;
      }
    }

    /** Looking a key up in the index finds it exactly when the list holds it. */
    lemma {:induction false} Lookup(key: V -> string, k: string)
      requires Valid(key)
      ensures k in index <==> HasKey(List(), key, k)
      ensures k in index ==> index[k] in order && index[k] in nodes && key(nodes[index[k]]) == k
    {
      ListKeys(key);
    }

    /** `list.begin()`, or `None` for `list.end()`. */
    function Begin(): Option<nat> {
      if order == [] then None else Some(order[0])
    }

    /** The iterator after `h`, or `None` for `list.end()`. */
    function After(h: nat): Option<nat>
      requires h in order
    {
      var i := IndexOf(order, h) + 1;
      if i == |order| then None else Some(order[i])
    }

    /** `list.insert(list.end(), v)` and `index.insert(key, it)`. */
    function PushBack(ghost key: V -> string, k: string, v: V): (r: Indexed<V>)
      requires Valid(key) && key(v) == k && k !in index
      ensures r.Valid(key) && r.List() == List() + [v]
      ensures r.order == order + [next] && r.nodes == nodes[next := v] && r.next == next + 1
    {
      var r := Indexed(order + [next], nodes[next := v], index[k := next], next + 1);
      assert next !in nodes && next !in order;
      assert forall h :: h in r.order <==> h in r.nodes;
      assert r.List() == List() + [v];
      r
    }

    /** Dropping the node of key `k` from the list drops exactly the row of key `k`. */
    lemma {:induction false} DropRow(key: V -> string, k: string)
      requires Valid(key) && k in index
      ensures forall h :: h in Drop(order, index[k]) ==> h in nodes && h != index[k]
      ensures Indexed(Drop(order, index[k]), nodes, index, next).Linked()
      ensures Indexed(Drop(order, index[k]), nodes, index, next).List() == Without(List(), key, k)
    {
      hide Without, DistinctKeys;
      var h := index[k];
      var i := IndexOf(order, h);
      DropNoDup(order, h);
      ListKeys(key);
      WithoutAt(List(), key, i);
      DropAt(h);
    }

    lemma {:induction false} DropAt(h: nat)
      requires Linked() && h in order && forall g :: g in Drop(order, h) ==> g in nodes
      ensures Indexed(Drop(order, h), nodes, index, next).List() == RemoveAt(List(), IndexOf(order, h))
    {
    }

    lemma {:induction false} MoveRow(key: V -> string, k: string, v: V)
      requires Valid(key) && k in index
      ensures forall h :: h in Drop(order, index[k]) ==> h in nodes
      ensures Indexed(Drop(order, index[k]) + [index[k]], nodes[index[k] := v], index, next).Linked()
      ensures Indexed(Drop(order, index[k]) + [index[k]], nodes[index[k] := v], index, next).List()
           == Without(List(), key, k) + [v]
    {
      DropRow(key, k);
      var d := Drop(order, index[k]);
      var l := Indexed(d + [index[k]], nodes[index[k] := v], index, next).List();
      forall i | 0 <= i < |d|
        ensures l[i] == Indexed(d, nodes, index, next).List()[i]
      {
        assert d[i] in d;
      }
      assert l == Indexed(d, nodes, index, next).List() + [v];
    }

    lemma {:induction false} ErasedValid(key: V -> string, k: string)
      requires Valid(key) && k in index
      ensures Indexed(Drop(order, index[k]), nodes - {index[k]}, index - {k}, next).Valid(key)
    {
      hide Drop;
      DropNoDup(order, index[k]);
    }

    lemma {:induction false} ErasedList(key: V -> string, k: string)
      requires Valid(key) && k in index
      requires Indexed(Drop(order, index[k]), nodes - {index[k]}, index - {k}, next).Valid(key)
      ensures Indexed(Drop(order, index[k]), nodes - {index[k]}, index - {k}, next).List() == Without(List(), key, k)
    {
      hide Drop, Without, Indexed.Valid;
      DropRow(key, k);
      var d := Drop(order, index[k]);
      var a, b := Indexed(d, nodes - {index[k]}, index - {k}, next).List(), Indexed(d, nodes, index, next).List();
      forall i | 0 <= i < |d|
        ensures a[i] == b[i]
      {
        assert d[i] in d;
      }
      assert a == b;
    }

    lemma {:induction false} MovedValid(key: V -> string, k: string, v: V)
      requires Valid(key) && k in index && key(v) == k
      ensures Indexed(Drop(order, index[k]) + [index[k]], nodes[index[k] := v], index, next).Valid(key)
    {
      hide Drop;
      DropNoDup(order, index[k]);
    }

    /** `list.erase(it)` and `index.erase(key)`. */
    function Erase(ghost key: V -> string, k: string): (r: Indexed<V>)
      requires Valid(key) && k in index
      ensures r.Valid(key) && r.List() == Without(List(), key, k)
      ensures r.nodes == nodes - {index[k]} && r.next == next
    {
      ErasedValid(key, k);
      ErasedList(key, k);
      Indexed(Drop(order, index[k]), nodes - {index[k]}, index - {k}, next)
    }

    /** `*it = v` followed by `list.splice(list.end(), list, it)`. */
    function MoveToBack(ghost key: V -> string, k: string, v: V): (r: Indexed<V>)
      requires Valid(key) && k in index && key(v) == k
      ensures r.Valid(key) && r.List() == Without(List(), key, k) + [v]
      ensures r.order == Drop(order, index[k]) + [index[k]] && r.nodes == nodes[index[k] := v] && r.next == next
    {
      MovedValid(key, k, v);
      MoveRow(key, k, v);
      Indexed(Drop(order, index[k]) + [index[k]], nodes[index[k] := v], index, next)
    }

    lemma {:induction false} FrontKey(key: V -> string)
      requires Valid(key) && order != []
      ensures key(List()[0]) in index && index[key(List()[0])] == order[0]
      ensures Without(List(), key, key(List()[0])) == List()[1..]
      ensures Drop(order, order[0]) == order[1..]
    {
      hide Without, DistinctKeys;
      ListKeys(key);
      assert order[0] in order;
      FrontOf(key);
      WithoutAt(List(), key, 0);
      FrontRemoved(List());
      FrontRemoved(order);
      assert IndexOf(order, order[0]) == 0;
    }

    lemma {:induction false} FrontOf(key: V -> string)
      requires Valid(key) && order != []
      ensures key(List()[0]) in index && index[key(List()[0])] == order[0]
    {
      assert order[0] in order;
    }

    /** Moving the front node to the back leaves the iterator that followed it at the front,
        unless there was only that node. */
    lemma {:induction false} FrontRotation(key: V -> string, v: V)
      requires Valid(key) && order != [] && key(v) == key(List()[0])
      ensures key(v) in index && order[0] in order
      ensures var r := MoveToBack(key, key(v), v);
              && r.List() == List()[1..] + [v]
              && (if |List()| == 1 then After(order[0]) == None else After(order[0]) == r.Begin())
    {
      hide Indexed.Valid, Indexed.Linked, Indexed.MoveToBack, Indexed.List, Without, Drop;
      FrontKey(key);
      assert IndexOf(order, order[0]) == 0;
    }

    lemma {:induction false} FrontNode()
      requires Linked()
      ensures Begin().None? <==> List() == []
      ensures order != [] ==> Begin() == Some(order[0]) && order[0] in nodes && List()[0] == nodes[order[0]]
    {
      if order != [] {
        assert order[0] in order;
      }
    }

    /** `*it = v`, the node staying where it is. */
    function Replace(ghost key: V -> string, k: string, v: V): (r: Indexed<V>)
      requires Valid(key) && k in index && key(v) == k
      ensures r.Valid(key) && r.nodes == nodes[index[k] := v] && r.order == order && r.next == next
      ensures r.List() == List()[IndexOf(order, index[k]) := v]
    {
      var r := Indexed(order, nodes[index[k] := v], index, next);
      assert r.List() == List()[IndexOf(order, index[k]) := v] by {
        forall j | 0 <= j < |order| && j != IndexOf(order, index[k])
          ensures r.List()[j] == List()[j]
        {
          assert order[j] != index[k];
        }
      }
      r
    }
  }

  function Empty<V>(): Indexed<V> {
    Indexed([], map[], map[], 0)
  }
}
