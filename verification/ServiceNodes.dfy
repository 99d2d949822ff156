/** The tracker's list of services as the program holds it: nodes with stable handles, and for each
    name the list of iterators of the nodes that provide it.  A node points to its region. */
module ServiceNodes {
  import opened Types
  import opened Lists
  import opened IndexedList
  import opened TrackerSpec

  /** `region` is a shared pointer into the list of regions; `None` would be a null pointer. */
  datatype RegionService = RegionService(region: Option<nat>, service: Service)

  type Regions = Indexed<Region>

  /** The id that is read through a region pointer. */
  function IdAt(rg: Regions, p: Option<nat>): string {
    if p.Some? && p.value in rg.nodes then rg.nodes[p.value].id else ""
  }

  function Shown(rg: Regions, s: RegionService): Provided {
    Provided(IdAt(rg, s.region), s.service)
  }

  const NO_SERVICE := RegionService(None, Service("", EndPoint("", ""), 0))

  function NodeAt(nodes: map<nat, RegionService>, h: nat): RegionService {
    if h in nodes then nodes[h] else NO_SERVICE
  }

  /** What a list of iterators stands for: the rows, and the regions that provide them. */
  function Rows(rg: Regions, nodes: map<nat, RegionService>, hs: seq<nat>): (r: seq<Provided>)
    ensures |r| == |hs|
  {
    seq(|hs|, i requires 0 <= i < |hs| => Shown(rg, NodeAt(nodes, hs[i])))
  }

  function RegionsOf(rg: Regions, nodes: map<nat, RegionService>, hs: seq<nat>): (r: seq<string>)
    ensures |r| == |hs|
  {
    seq(|hs|, i requires 0 <= i < |hs| => IdAt(rg, NodeAt(nodes, hs[i]).region))
  }

  datatype ServiceList = ServiceList(
    order: seq<nat>,
    nodes: map<nat, RegionService>,
    index: map<string, seq<nat>>,
    next: nat) {

    function At(name: string): seq<nat> {
      if name in index then index[name] else []
    }

    /** Every name is indexed exactly with the nodes that carry it. */
    ghost predicate IndexValid() {
      && (forall n :: n in index ==> index[n] != [])
      && (forall n :: NoDup(At(n)))
      && (forall n, h :: h in At(n) <==> h in nodes && nodes[h].service.name == n)
    }

    ghost predicate Live(rg: Regions) {
      forall h :: h in nodes ==> nodes[h].region.Some? && nodes[h].region.value in rg.nodes
    }

    /** No region has two nodes of one name. */
    ghost predicate Unique() {
      forall h, g :: h in nodes && g in nodes ==>
                       (nodes[h].region == nodes[g].region && nodes[h].service.name == nodes[g].service.name ==> h == g)
    }

    ghost predicate Valid(rg: Regions) {
      && NoDup(order)
      && (forall h :: h in order <==> h in nodes)
      && (forall h :: h in nodes ==> h < next)
      && IndexValid()
      && Live(rg)
      && Unique()
    }

    function List(rg: Regions): (r: seq<Provided>)
      ensures |r| == |order|
    {
      Rows(rg, nodes, order)
    }

    function RobinOf(rg: Regions): Robin {
      map n | n in index :: RegionsOf(rg, nodes, index[n])
    }

    /** A new node for the region at the back of both lists. */
    function Insert(r: nat, svc: Service): ServiceList {
      ServiceList(order + [next], nodes[next := RegionService(Some(r), svc)],
                  index[svc.name := At(svc.name) + [next]], next + 1)
    }

    /** The node takes the new record and goes to the back; the index is not touched. */
    function Touch(h: nat, svc: Service): ServiceList
      requires h in nodes
    {
      ServiceList(Drop(order, h) + [h], nodes[h := nodes[h].(service := svc)], index, next)
    }

    /** The node leaves both lists, and its name leaves the index with its last node. */
    function Erase(h: nat): ServiceList
      requires h in nodes
    {
      var n := nodes[h].service.name;
      var l := Drop(At(n), h);
      ServiceList(Drop(order, h), nodes - {h}, if l == [] then index - {n} else index[n := l], next)
    }

    function Rotate(name: string): ServiceList
      requires At(name) != []
    {
      this.(index := index[name := At(name)[1..] + [At(name)[0]]])
    }
  }

  function NoServices(): ServiceList {
    ServiceList([], map[], map[], 0)
  }

  /** The regions with distinct ids have distinct handles. */
  lemma {:induction false} SameId(rg: Regions, a: nat, b: nat)
    requires rg.Valid(RegionKey) && a in rg.nodes && b in rg.nodes
    ensures rg.nodes[a].id == rg.nodes[b].id <==> a == b
  {
    assert RegionKey(rg.nodes[a]) == rg.nodes[a].id && RegionKey(rg.nodes[b]) == rg.nodes[b].id;
  }

  lemma {:induction false} ProvidersAt(rg: Regions, s: ServiceList, n: string)
    ensures ProvidersOf(s.RobinOf(rg), n) == RegionsOf(rg, s.nodes, s.At(n))
    ensures n in s.RobinOf(rg) <==> n in s.index
  {
  }

  /** Reading rows through other lists of regions gives the same, as long as the ids agree. */
  lemma {:induction false} SameRows(rg: Regions, rg': Regions, s: ServiceList)
    requires forall h :: h in s.nodes ==> IdAt(rg, s.nodes[h].region) == IdAt(rg', s.nodes[h].region)
    ensures s.List(rg) == s.List(rg')
    ensures s.RobinOf(rg) == s.RobinOf(rg')
  {
    forall hs: seq<nat>
      ensures Rows(rg, s.nodes, hs) == Rows(rg', s.nodes, hs)
      ensures RegionsOf(rg, s.nodes, hs) == RegionsOf(rg', s.nodes, hs)
    {
      forall i | 0 <= i < |hs|
        ensures Shown(rg, NodeAt(s.nodes, hs[i])) == Shown(rg', NodeAt(s.nodes, hs[i]))
      {
      }
      assert forall i :: 0 <= i < |hs| ==> Rows(rg, s.nodes, hs)[i] == Rows(rg', s.nodes, hs)[i];
      assert forall i :: 0 <= i < |hs| ==> RegionsOf(rg, s.nodes, hs)[i] == RegionsOf(rg', s.nodes, hs)[i];
    }
    assert forall n :: n in s.RobinOf(rg) ==> s.RobinOf(rg)[n] == s.RobinOf(rg')[n];
  }

  // Insert

  lemma {:induction false} AppendNew(s: seq<nat>, h: nat)
    requires NoDup(s) && h !in s
    ensures NoDup(s + [h])
  {
  }

  lemma {:induction false} InsertValid(rg: Regions, s: ServiceList, r: nat, svc: Service)
    requires s.Valid(rg) && r in rg.nodes
    requires forall h :: h in s.At(svc.name) ==> s.nodes[h].region != Some(r)
    ensures s.Insert(r, svc).Valid(rg)
  {
    hide NoDup, ServiceList.IndexValid;
    assert s.next !in s.nodes && s.next !in s.order;
    AppendNew(s.order, s.next);
    InsertIndex(s, r, svc);
    InsertUnique(s, r, svc);
  }

  lemma {:induction false} InsertIndex(s: ServiceList, r: nat, svc: Service)
    requires s.IndexValid() && s.next !in s.nodes
    ensures s.Insert(r, svc).IndexValid()
  {
    hide NoDup;
    var t := s.Insert(r, svc);
    assert forall n :: t.At(n) == if n == svc.name then s.At(n) + [s.next] else s.At(n);
    forall n
      ensures NoDup(t.At(n))
    {
      assert s.next !in s.At(n);
      AppendNew(s.At(n), s.next);
    }
  }

  lemma {:induction false} InsertUnique(s: ServiceList, r: nat, svc: Service)
    requires s.Unique() && s.IndexValid() && s.next !in s.nodes
    requires forall h :: h in s.At(svc.name) ==> s.nodes[h].region != Some(r)
    ensures s.Insert(r, svc).Unique()
  {
    hide NoDup;
    forall h | h in s.nodes && s.nodes[h].service.name == svc.name
      ensures s.nodes[h].region != Some(r)
    {
      assert h in s.At(svc.name);
    }
  }

  /** Nodes that are not in the list can be added without changing what the list stands for. */
  lemma {:induction false} RowsUntouched(rg: Regions, nodes: map<nat, RegionService>, nodes': map<nat, RegionService>,
                                         hs: seq<nat>)
    requires forall h :: h in hs ==> NodeAt(nodes, h) == NodeAt(nodes', h)
    ensures Rows(rg, nodes, hs) == Rows(rg, nodes', hs) && RegionsOf(rg, nodes, hs) == RegionsOf(rg, nodes', hs)
  {
    assert forall i :: 0 <= i < |hs| ==> hs[i] in hs;
  }

  lemma {:induction false} RowsAppend(rg: Regions, nodes: map<nat, RegionService>, hs: seq<nat>, h: nat)
    ensures Rows(rg, nodes, hs + [h]) == Rows(rg, nodes, hs) + [Shown(rg, NodeAt(nodes, h))]
    ensures RegionsOf(rg, nodes, hs + [h]) == RegionsOf(rg, nodes, hs) + [IdAt(rg, NodeAt(nodes, h).region)]
  {
  }

  lemma {:induction false} RowsDrop(rg: Regions, nodes: map<nat, RegionService>, hs: seq<nat>, h: nat)
    requires h in hs
    ensures Rows(rg, nodes, Drop(hs, h)) == RemoveAt(Rows(rg, nodes, hs), IndexOf(hs, h))
    ensures RegionsOf(rg, nodes, Drop(hs, h)) == RemoveAt(RegionsOf(rg, nodes, hs), IndexOf(hs, h))
  {
  }

  /** The row of a node is the only one with its key. */
  lemma {:induction false} ListDistinct(rg: Regions, s: ServiceList)
    requires s.Valid(rg) && rg.Valid(RegionKey)
    ensures DistinctKeys(s.List(rg), ProvidedKey)
  {
    var l := s.List(rg);
    forall i, j | 0 <= i < j < |l|
      ensures ProvidedKey(l[i]) != ProvidedKey(l[j])
    {
      var a, b := s.order[i], s.order[j];
      assert a in s.nodes && b in s.nodes && a != b;
      SameId(rg, s.nodes[a].region.value, s.nodes[b].region.value);
    }
  }

  lemma {:induction false} ProvidersDistinct(rg: Regions, s: ServiceList, n: string)
    requires s.Valid(rg) && rg.Valid(RegionKey)
    ensures NoDup(RegionsOf(rg, s.nodes, s.At(n)))
  {
    var l, hs := RegionsOf(rg, s.nodes, s.At(n)), s.At(n);
    assert NoDup(hs);
    forall i, j | 0 <= i < j < |l|
      ensures l[i] != l[j]
    {
      var a, b := hs[i], hs[j];
      assert a in hs && b in hs && a != b;
      SameId(rg, s.nodes[a].region.value, s.nodes[b].region.value);
    }
  }

  /** A region provides a name exactly if a node of that region is in the name's list. */
  lemma {:induction false} ProvidesIff(rg: Regions, s: ServiceList, n: string, r: nat)
    requires s.Valid(rg) && rg.Valid(RegionKey) && r in rg.nodes
    ensures rg.nodes[r].id in RegionsOf(rg, s.nodes, s.At(n)) <==>
            exists h :: h in s.At(n) && s.nodes[h].region == Some(r)
    ensures HasKey(s.List(rg), ProvidedKey, ServiceId(rg.nodes[r].id, n)) <==>
            exists h :: h in s.At(n) && s.nodes[h].region == Some(r)
  {
    var id := rg.nodes[r].id;
    var l, hs := RegionsOf(rg, s.nodes, s.At(n)), s.At(n);
    if i :| 0 <= i < |l| && l[i] == id {
      assert hs[i] in hs;
      SameId(rg, s.nodes[hs[i]].region.value, r);
    }
    if h :| h in hs && s.nodes[h].region == Some(r) {
      assert l[IndexOf(hs, h)] == id;
      assert h in s.order;
      assert ProvidedKey(s.List(rg)[IndexOf(s.order, h)]) == ServiceId(id, n);
    }
    if i :| 0 <= i < |s.order| && ProvidedKey(s.List(rg)[i]) == ServiceId(id, n) {
      var h := s.order[i];
      assert h in s.nodes;
      SameId(rg, s.nodes[h].region.value, r);
      assert h in s.At(n);
    }
  }

  lemma {:induction false} InsertView(rg: Regions, s: ServiceList, r: nat, svc: Service)
    requires s.Valid(rg) && rg.Valid(RegionKey) && r in rg.nodes
    requires forall h :: h in s.At(svc.name) ==> s.nodes[h].region != Some(r)
    ensures var t, id := s.Insert(r, svc), rg.nodes[r].id;
            && t.List(rg) == Without(s.List(rg), ProvidedKey, ServiceId(id, svc.name)) + [Provided(id, svc)]
            && t.RobinOf(rg) == WithProviders(s.RobinOf(rg), svc.name, Joined(ProvidersOf(s.RobinOf(rg), svc.name), id))
  {
    hide Indexed.Valid, Rows, RegionsOf;
    var t, id := s.Insert(r, svc), rg.nodes[r].id;
    ProvidesIff(rg, s, svc.name, r);
    WithoutNone(s.List(rg), ProvidedKey, ServiceId(id, svc.name));
    assert s.next !in s.order;
    RowsUntouched(rg, s.nodes, t.nodes, s.order);
    RowsAppend(rg, t.nodes, s.order, s.next);
    forall n
      ensures RegionsOf(rg, t.nodes, s.At(n)) == RegionsOf(rg, s.nodes, s.At(n))
    {
      assert s.next !in s.At(n);
      RowsUntouched(rg, s.nodes, t.nodes, s.At(n));
    }
    RowsAppend(rg, t.nodes, s.At(svc.name), s.next);
    ProvidersAt(rg, s, svc.name);
    var a, b := t.RobinOf(rg), WithProviders(s.RobinOf(rg), svc.name, Joined(ProvidersOf(s.RobinOf(rg), svc.name), id));
    forall n | n in a
      ensures n in b && a[n] == b[n]
    {
      assert n != svc.name ==> t.index[n] == s.At(n);
    }
    assert forall n :: n in b ==> n in a;
  }

  // Touch

  lemma {:induction false} TouchValid(rg: Regions, s: ServiceList, h: nat, svc: Service)
    requires s.Valid(rg) && h in s.nodes && svc.name == s.nodes[h].service.name
    ensures s.Touch(h, svc).Valid(rg)
  {
    hide Drop;
    DropNoDup(s.order, h);
    var t := s.Touch(h, svc);
    assert t.IndexValid() by {
      assert forall n :: t.At(n) == s.At(n);
    }
  }

  lemma {:induction false} TouchView(rg: Regions, s: ServiceList, h: nat, svc: Service)
    requires s.Valid(rg) && rg.Valid(RegionKey) && h in s.nodes && svc.name == s.nodes[h].service.name
    ensures var t, id := s.Touch(h, svc), IdAt(rg, s.nodes[h].region);
            && t.List(rg) == Without(s.List(rg), ProvidedKey, ServiceId(id, svc.name)) + [Provided(id, svc)]
            && t.RobinOf(rg) == WithProviders(s.RobinOf(rg), svc.name, Joined(ProvidersOf(s.RobinOf(rg), svc.name), id))
  {
    hide Indexed.Valid, Rows, RegionsOf, Drop;
    var t, id := s.Touch(h, svc), IdAt(rg, s.nodes[h].region);
    var d := Drop(s.order, h);
    DropNoDup(s.order, h);
    RowAt(rg, s, h);
    ListDistinct(rg, s);
    WithoutAt(s.List(rg), ProvidedKey, IndexOf(s.order, h));
    RowsDrop(rg, s.nodes, s.order, h);
    RowsUntouched(rg, s.nodes, t.nodes, d);
    RowsAppend(rg, t.nodes, d, h);
    forall n
      ensures RegionsOf(rg, t.nodes, s.At(n)) == RegionsOf(rg, s.nodes, s.At(n))
    {
      SameRegionsOf(rg, s.nodes, t.nodes, s.At(n));
    }
    ProvidersAt(rg, s, svc.name);
    JoinedAlready(rg, s, h);
    forall n | n in t.RobinOf(rg)
      ensures t.RobinOf(rg)[n] == s.RobinOf(rg)[n]
    {
      assert s.At(n) == s.index[n];
    }
    assert t.RobinOf(rg) == s.RobinOf(rg);
  }

  lemma {:induction false} SameRegionsOf(rg: Regions, nodes: map<nat, RegionService>, nodes': map<nat, RegionService>,
                                         hs: seq<nat>)
    requires forall h :: NodeAt(nodes, h).region == NodeAt(nodes', h).region
    ensures RegionsOf(rg, nodes, hs) == RegionsOf(rg, nodes', hs)
  {
  }

  lemma {:induction false} RowAt(rg: Regions, s: ServiceList, h: nat)
    requires s.Valid(rg) && h in s.nodes
    ensures h in s.order && s.List(rg)[IndexOf(s.order, h)] == Shown(rg, s.nodes[h])
    ensures h in s.At(s.nodes[h].service.name)
  {
  }

  lemma {:induction false} JoinedAlready(rg: Regions, s: ServiceList, h: nat)
    requires s.Valid(rg) && h in s.nodes
    ensures var n, id := s.nodes[h].service.name, IdAt(rg, s.nodes[h].region);
            && RegionsOf(rg, s.nodes, s.At(n)) != []
            && id in RegionsOf(rg, s.nodes, s.At(n))
  {
    var n := s.nodes[h].service.name;
    assert h in s.At(n);
    assert RegionsOf(rg, s.nodes, s.At(n))[IndexOf(s.At(n), h)] == IdAt(rg, s.nodes[h].region);
  }

  // Erase

  lemma {:induction false} EraseValid(rg: Regions, s: ServiceList, h: nat)
    requires s.Valid(rg) && h in s.nodes
    ensures s.Erase(h).Valid(rg)
  {
    hide Drop;
    var n := s.nodes[h].service.name;
    DropNoDup(s.order, h);
    DropNoDup(s.At(n), h);
    var t := s.Erase(h);
    assert forall m :: t.At(m) == if m == n then Drop(s.At(n), h) else s.At(m);
  }

  lemma {:induction false} EraseView(rg: Regions, s: ServiceList, h: nat)
    requires s.Valid(rg) && rg.Valid(RegionKey) && h in s.nodes
    ensures var t, id, n := s.Erase(h), IdAt(rg, s.nodes[h].region), s.nodes[h].service.name;
            && t.List(rg) == Without(s.List(rg), ProvidedKey, ServiceId(id, n))
            && t.List(rg) == RemoveAt(s.List(rg), IndexOf(s.order, h))
            && t.RobinOf(rg) == WithProviders(s.RobinOf(rg), n, Drop(ProvidersOf(s.RobinOf(rg), n), id))
  {
    hide Indexed.Valid, Rows, RegionsOf, Drop;
    var t, id, n := s.Erase(h), IdAt(rg, s.nodes[h].region), s.nodes[h].service.name;
    DropNoDup(s.order, h);
    RowAt(rg, s, h);
    ListDistinct(rg, s);
    WithoutAt(s.List(rg), ProvidedKey, IndexOf(s.order, h));
    RowsDrop(rg, s.nodes, s.order, h);
    RowsUntouched(rg, s.nodes, t.nodes, Drop(s.order, h));
    EraseRobin(rg, s, h);
  }

  lemma {:induction false} EraseRobin(rg: Regions, s: ServiceList, h: nat)
    requires s.Valid(rg) && rg.Valid(RegionKey) && h in s.nodes
    ensures var t, id, n := s.Erase(h), IdAt(rg, s.nodes[h].region), s.nodes[h].service.name;
            t.RobinOf(rg) == WithProviders(s.RobinOf(rg), n, Drop(ProvidersOf(s.RobinOf(rg), n), id))
  {
    hide Indexed.Valid, Rows, RegionsOf, Drop;
    var t, id, n := s.Erase(h), IdAt(rg, s.nodes[h].region), s.nodes[h].service.name;
    var hs := s.At(n);
    DropNoDup(hs, h);
    DropRegionsOf(rg, s, h);
    RowsUntouched(rg, s.nodes, t.nodes, Drop(hs, h));
    ProvidersAt(rg, s, n);
    forall m | m != n
      ensures RegionsOf(rg, t.nodes, s.At(m)) == RegionsOf(rg, s.nodes, s.At(m))
    {
      assert h !in s.At(m);
      RowsUntouched(rg, s.nodes, t.nodes, s.At(m));
    }
    var a, b := t.RobinOf(rg), WithProviders(s.RobinOf(rg), n, Drop(RegionsOf(rg, s.nodes, hs), id));
    assert Drop(hs, h) == [] <==> Drop(RegionsOf(rg, s.nodes, hs), id) == [];
    assert forall m :: m in a <==> m in b;
    forall m | m in a
      ensures a[m] == b[m]
    {
      assert m != n ==> t.index[m] == s.At(m);
    }
  }

  lemma {:induction false} DropRegionsOf(rg: Regions, s: ServiceList, h: nat)
    requires s.Valid(rg) && rg.Valid(RegionKey) && h in s.nodes
    ensures var id, hs := IdAt(rg, s.nodes[h].region), s.At(s.nodes[h].service.name);
            RegionsOf(rg, s.nodes, Drop(hs, h)) == Drop(RegionsOf(rg, s.nodes, hs), id)
  {
    hide Indexed.Valid, Rows;
    var n := s.nodes[h].service.name;
    var hs, id := s.At(n), IdAt(rg, s.nodes[h].region);
    RowAt(rg, s, h);
    var l, i := RegionsOf(rg, s.nodes, hs), IndexOf(hs, h);
    RowsDrop(rg, s.nodes, hs, h);
    ProvidersDistinct(rg, s, n);
    assert l[i] == id;
    assert IndexOf(l, id) == i;
  }

  // Rotate

  lemma {:induction false} RotateValid(rg: Regions, s: ServiceList, name: string)
    requires s.Valid(rg) && s.At(name) != []
    ensures s.Rotate(name).Valid(rg)
  {
    hide NoDup;
    var t, l := s.Rotate(name), s.At(name);
    RotatedNoDup(l);
    assert forall n :: t.At(n) == if n == name then l[1..] + [l[0]] else s.At(n);
    assert t.IndexValid();
  }

  lemma {:induction false} RotatedNoDup(l: seq<nat>)
    requires NoDup(l) && l != []
    ensures NoDup(l[1..] + [l[0]]) && forall h :: h in l[1..] + [l[0]] <==> h in l
  {
    var q := l[1..] + [l[0]];
    assert l == [l[0]] + l[1..];
    forall i, j | 0 <= i < j < |q|
      ensures q[i] != q[j]
    {
    }
  }

  lemma {:induction false} RotateView(rg: Regions, s: ServiceList, name: string)
    requires s.At(name) != []
    ensures var t, p := s.Rotate(name), ProvidersOf(s.RobinOf(rg), name);
            && t.List(rg) == s.List(rg)
            && p != [] && t.RobinOf(rg) == s.RobinOf(rg)[name := p[1..] + [p[0]]]
  {
    var t, l := s.Rotate(name), s.At(name);
    var p := ProvidersOf(s.RobinOf(rg), name);
    assert RegionsOf(rg, s.nodes, l[1..] + [l[0]]) == p[1..] + [p[0]];
    var a, b := t.RobinOf(rg), s.RobinOf(rg)[name := p[1..] + [p[0]]];
    assert forall n :: n in a <==> n in b;
    assert forall n :: n in a ==> a[n] == b[n];
  }
}
