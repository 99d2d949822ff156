/** The tracker's three lists and their indexes together, and the table they stand for. */
module TrackerNodes {
  import opened Types
  import opened Lists
  import opened IndexedList
  import opened TrackerSpec
  import opened TrackerInvariant
  import opened ServiceNodes

  datatype RegionPayload = RegionPayload(region: nat, payload: Payload)

  type Payloads = Indexed<RegionPayload>

  function PayloadNodeKey(p: RegionPayload): string { p.payload.id }

  function PayloadNodeRegion(p: RegionPayload): nat { p.region }

  function ShownPayload(rg: Regions, p: RegionPayload): Carried {
    Carried(IdAt(rg, Some(p.region)), p.payload)
  }

  function CarriedRows(rg: Regions, s: seq<RegionPayload>): (r: seq<Carried>)
    ensures |r| == |s|
  {
    seq(|s|, i requires 0 <= i < |s| => ShownPayload(rg, s[i]))
  }

  ghost predicate LivePayloads(rg: Regions, s: seq<RegionPayload>) {
    forall i :: 0 <= i < |s| ==> s[i].region in rg.nodes
  }

  /** Each index maps exactly onto its list, and every service and payload points to a live region. */
  ghost predicate RepValid(rg: Regions, ss: ServiceList, ps: Payloads): (valid: bool)
    ensures valid ==> rg.Linked() && ps.Linked()
  {
    && rg.Valid(RegionKey)
    && ss.Valid(rg)
    && ps.Valid(PayloadNodeKey)
    && LivePayloads(rg, ps.List())
  }

  function ViewOf(rg: Regions, ss: ServiceList, ps: Payloads): Table
    requires rg.Linked() && ps.Linked()
  {
    Table(rg.List(), ss.List(rg), CarriedRows(rg, ps.List()), ss.RobinOf(rg))
  }

  lemma {:induction false} RegionAt(rg: Regions, id: string)
    requires rg.Valid(RegionKey)
    ensures HasKey(rg.List(), RegionKey, id) <==> id in rg.index
    ensures id in rg.index ==>
              rg.index[id] in rg.nodes && rg.nodes[rg.index[id]].id == id && rg.nodes[rg.index[id]] in rg.List()
  {
    rg.Lookup(RegionKey, id);
    if id in rg.index {
      var h := rg.index[id];
      assert h in rg.order;
      assert rg.List()[IndexOf(rg.order, h)] == rg.nodes[h];
    }
  }

  lemma {:induction false} HandleAt(rg: Regions, h: nat)
    requires rg.Valid(RegionKey) && h in rg.nodes
    ensures rg.nodes[h].id in rg.index && rg.index[rg.nodes[h].id] == h
    ensures HasKey(rg.List(), RegionKey, rg.nodes[h].id)
  {
    assert RegionKey(rg.nodes[h]) in rg.index;
    RegionAt(rg, rg.nodes[h].id);
  }

  /** A valid representation stands for a valid table. */
  lemma {:induction false} ViewValid(rg: Regions, ss: ServiceList, ps: Payloads)
    requires RepValid(rg, ss, ps)
    ensures ViewOf(rg, ss, ps).Valid()
  {
    hide Indexed.Valid, ServiceList.Valid, Rows, RegionsOf, CarriedRows, Indexed.List;
    var t := ViewOf(rg, ss, ps);
    rg.ListKeys(RegionKey);
    ListDistinct(rg, ss);
    CarriedDistinct(rg, ps);
    ViewLive(rg, ss, ps);
    ViewRobin(rg, ss, ps);
  }

  lemma {:induction false} CarriedDistinct(rg: Regions, ps: Payloads)
    requires ps.Valid(PayloadNodeKey)
    ensures DistinctKeys(CarriedRows(rg, ps.List()), CarriedKey)
  {
    hide Indexed.Valid, Indexed.List;
    ps.ListKeys(PayloadNodeKey);
    var l, r := ps.List(), CarriedRows(rg, ps.List());
    forall i, j | 0 <= i < j < |r|
      ensures CarriedKey(r[i]) != CarriedKey(r[j])
    {
      assert PayloadNodeKey(l[i]) != PayloadNodeKey(l[j]);
    }
  }

  lemma {:induction false} ViewLive(rg: Regions, ss: ServiceList, ps: Payloads)
    requires RepValid(rg, ss, ps)
    ensures ViewOf(rg, ss, ps).Live()
  {
    hide Indexed.Valid, Indexed.List;
    var t := ViewOf(rg, ss, ps);
    forall i | 0 <= i < |t.services|
      ensures t.Has(t.services[i].region)
    {
      var h := ss.order[i];
      assert h in ss.nodes;
      HandleAt(rg, ss.nodes[h].region.value);
    }
    forall i | 0 <= i < |t.payloads|
      ensures t.Has(t.payloads[i].region)
    {
      HandleAt(rg, ps.List()[i].region);
    }
  }

  lemma {:induction false} ViewRobin(rg: Regions, ss: ServiceList, ps: Payloads)
    requires RepValid(rg, ss, ps)
    ensures ViewOf(rg, ss, ps).RobinValid()
  {
    hide Indexed.Valid, Indexed.List, Rows;
    var t := ViewOf(rg, ss, ps);
    forall n
      ensures NoDup(t.Providers(n)) && (n in t.robin ==> t.robin[n] != [])
    {
      ProvidersAt(rg, ss, n);
      ProvidersDistinct(rg, ss, n);
    }
    forall n, r
      ensures r in t.Providers(n) <==> HasKey(t.services, ProvidedKey, ServiceId(r, n))
    {
      ProvidersAt(rg, ss, n);
      if r in rg.index {
        RegionAt(rg, r);
        ProvidesIff(rg, ss, n, rg.index[r]);
      } else {
        NobodyProvides(rg, ss, n, r);
      }
    }
  }

  lemma {:induction false} NobodyProvides(rg: Regions, ss: ServiceList, n: string, r: string)
    requires rg.Valid(RegionKey) && ss.Valid(rg) && r !in rg.index
    ensures r !in RegionsOf(rg, ss.nodes, ss.At(n)) && !HasKey(ss.List(rg), ProvidedKey, ServiceId(r, n))
  {
    hide Indexed.Valid, Indexed.List;
    forall h | h in ss.nodes
      ensures IdAt(rg, ss.nodes[h].region) != r
    {
      HandleAt(rg, ss.nodes[h].region.value);
    }
    var hs := ss.At(n);
    forall i | 0 <= i < |hs|
      ensures RegionsOf(rg, ss.nodes, hs)[i] != r
    {
      assert hs[i] in hs;
    }
    forall i | 0 <= i < |ss.order|
      ensures ProvidedKey(ss.List(rg)[i]) != ServiceId(r, n)
    {
      assert ss.order[i] in ss.order;
    }
  }

  // Changing the list of regions

  /** Region records may change and regions may be added under everything else. */
  lemma {:induction false} RegionsGrow(rg: Regions, rg': Regions, ss: ServiceList, ps: Payloads)
    requires RepValid(rg, ss, ps) && rg'.Valid(RegionKey)
    requires forall h :: h in rg.nodes ==> h in rg'.nodes && rg'.nodes[h].id == rg.nodes[h].id
    ensures RepValid(rg', ss, ps)
    ensures ViewOf(rg', ss, ps) == ViewOf(rg, ss, ps).(regions := rg'.List())
  {
    hide Indexed.Valid, Indexed.List;
    SameRows(rg, rg', ss);
    assert CarriedRows(rg', ps.List()) == CarriedRows(rg, ps.List());
  }

  lemma {:induction false} VersionView(rg: Regions, ss: ServiceList, ps: Payloads, id: string, v: uint32)
    requires RepValid(rg, ss, ps) && id in rg.index
    ensures rg.index[id] in rg.nodes && RegionKey(rg.nodes[rg.index[id]]) == id
    ensures var rg' := rg.Replace(RegionKey, id, rg.nodes[rg.index[id]].(version := v));
            RepValid(rg', ss, ps) && ViewOf(rg', ss, ps) == SetVersion(ViewOf(rg, ss, ps), id, v)
  {
    hide ServiceList.Valid, ServiceList.List, ServiceList.RobinOf, CarriedRows, Indexed.Valid;
    RegionAt(rg, id);
    var h := rg.index[id];
    var rg' := rg.Replace(RegionKey, id, rg.nodes[h].(version := v));
    RegionsGrow(rg, rg', ss, ps);
    ReplacedIsVersioned(rg, id, v);
  }

  lemma {:induction false} ReplacedIsVersioned(rg: Regions, id: string, v: uint32)
    requires rg.Valid(RegionKey) && id in rg.index
    ensures rg.index[id] in rg.order && RegionKey(rg.nodes[rg.index[id]]) == id
    ensures rg.List()[IndexOf(rg.order, rg.index[id]) := rg.nodes[rg.index[id]].(version := v)] ==
            VersionedRegions(rg.List(), id, v)
  {
    var h := rg.index[id];
    assert h in rg.order;
    var i, l := IndexOf(rg.order, h), rg.List();
    forall j | 0 <= j < |l| && j != i
      ensures l[j].id != id
    {
      assert rg.order[j] != h && rg.order[j] in rg.nodes;
      SameId(rg, rg.order[j], h);
    }
  }

  // Payloads

  lemma {:induction false} CarriedWithout(rg: Regions, s: seq<RegionPayload>, id: string)
    ensures CarriedRows(rg, Without(s, PayloadNodeKey, id)) == Without(CarriedRows(rg, s), CarriedKey, id)
  {
    if s != [] {
      CarriedWithout(rg, s[1..], id);
      assert CarriedRows(rg, s)[1..] == CarriedRows(rg, s[1..]);
      if s[0].payload.id != id {
        assert CarriedRows(rg, [s[0]] + Without(s[1..], PayloadNodeKey, id))
            == [ShownPayload(rg, s[0])] + CarriedRows(rg, Without(s[1..], PayloadNodeKey, id));
      }
    }
  }

  lemma {:induction false} CarriedWithoutRegion(rg: Regions, s: seq<RegionPayload>, r: nat)
    requires rg.Valid(RegionKey) && r in rg.nodes && LivePayloads(rg, s)
    ensures CarriedRows(rg, Without(s, PayloadNodeRegion, r)) ==
            Without(CarriedRows(rg, s), CarriedRegion, rg.nodes[r].id)
  {
    hide Indexed.Valid;
    if s != [] {
      CarriedWithoutRegion(rg, s[1..], r);
      assert CarriedRows(rg, s)[1..] == CarriedRows(rg, s[1..]);
      SameId(rg, s[0].region, r);
      if s[0].region != r {
        assert CarriedRows(rg, [s[0]] + Without(s[1..], PayloadNodeRegion, r))
            == [ShownPayload(rg, s[0])] + CarriedRows(rg, Without(s[1..], PayloadNodeRegion, r));
      }
    }
  }

  lemma {:induction false} CarriedAppend(rg: Regions, s: seq<RegionPayload>, p: RegionPayload)
    ensures CarriedRows(rg, s + [p]) == CarriedRows(rg, s) + [ShownPayload(rg, p)]
  {
  }

  lemma {:induction false} LiveWithout<K>(rg: Regions, s: seq<RegionPayload>, key: RegionPayload -> K, k: K)
    requires LivePayloads(rg, s)
    ensures LivePayloads(rg, Without(s, key, k))
  {
    WithoutMembers(s, key, k);
    var w := Without(s, key, k);
    forall i | 0 <= i < |w|
      ensures w[i].region in rg.nodes
    {
      assert w[i] in w;
    }
  }

  /** A payload put for the region at handle `r`, new or taken over. */
  lemma {:induction false} PutPayloadView(rg: Regions, ss: ServiceList, ps: Payloads, ps': Payloads, r: nat,
                                          pl: Payload)
    requires RepValid(rg, ss, ps) && r in rg.nodes
    requires ps'.Valid(PayloadNodeKey)
    requires ps'.List() == Without(ps.List(), PayloadNodeKey, pl.id) + [RegionPayload(r, pl)]
    ensures RepValid(rg, ss, ps')
    ensures ViewOf(rg, ss, ps') == PutPayload(ViewOf(rg, ss, ps), rg.nodes[r].id, pl)
  {
    hide Indexed.Valid, Indexed.List, ServiceList.Valid, ServiceList.List, ServiceList.RobinOf, CarriedRows, Without;
    CarriedWithout(rg, ps.List(), pl.id);
    CarriedAppend(rg, Without(ps.List(), PayloadNodeKey, pl.id), RegionPayload(r, pl));
    LiveWithout(rg, ps.List(), PayloadNodeKey, pl.id);
  }

  /** The owner takes its payload away. */
  lemma {:induction false} RemoveOwnView(rg: Regions, ss: ServiceList, ps: Payloads, pid: string)
    requires RepValid(rg, ss, ps) && pid in ps.index
    ensures ps.index[pid] in ps.nodes && ps.nodes[ps.index[pid]].region in rg.nodes
    ensures var ps', id := ps.Erase(PayloadNodeKey, pid), rg.nodes[ps.nodes[ps.index[pid]].region].id;
            RepValid(rg, ss, ps') && ViewOf(rg, ss, ps') == RemovePayload(ViewOf(rg, ss, ps), id, pid)
  {
    hide Indexed.Valid, Indexed.List, ServiceList.Valid, ServiceList.List, ServiceList.RobinOf, CarriedRows, Without;
    PayloadAt(rg, ps, pid);
    LiveWithout(rg, ps.List(), PayloadNodeKey, pid);
    CarriedWithout(rg, ps.List(), pid);
    CarriedDistinct(rg, ps);
    var id := rg.nodes[ps.nodes[ps.index[pid]].region].id;
    OwnerWithout(CarriedRows(rg, ps.List()), id, pid);
  }

  lemma {:induction false} PayloadAt(rg: Regions, ps: Payloads, pid: string)
    requires ps.Valid(PayloadNodeKey) && LivePayloads(rg, ps.List())
    ensures pid in ps.index <==> HasKey(CarriedRows(rg, ps.List()), CarriedKey, pid)
    ensures pid in ps.index ==>
              && ps.index[pid] in ps.nodes && ps.nodes[ps.index[pid]].region in rg.nodes
              && ShownPayload(rg, ps.nodes[ps.index[pid]]) in CarriedRows(rg, ps.List())
              && ps.nodes[ps.index[pid]].payload.id == pid
  {
    ps.Lookup(PayloadNodeKey, pid);
    var l, c := ps.List(), CarriedRows(rg, ps.List());
    if pid in ps.index {
      var h := ps.index[pid];
      var i := IndexOf(ps.order, h);
      assert l[i] == ps.nodes[h];
      assert c[i] == ShownPayload(rg, ps.nodes[h]);
      assert CarriedKey(c[i]) == pid;
    }
    if i :| 0 <= i < |c| && CarriedKey(c[i]) == pid {
      assert PayloadNodeKey(l[i]) == pid;
    }
  }

  /** Taking a row out by owner and id takes it out by id if the owner has it, and nothing otherwise. */
  lemma {:induction false} OwnerWithout(c: seq<Carried>, id: string, pid: string)
    requires DistinctKeys(c, CarriedKey)
    ensures (exists x :: x in c && x.region == id && x.payload.id == pid) ==>
              Without(c, CarriedBoth, PayloadId(id, pid)) == Without(c, CarriedKey, pid)
    ensures (forall x :: x in c && x.payload.id == pid ==> x.region != id) ==>
              Without(c, CarriedBoth, PayloadId(id, pid)) == c
  {
    if x :| x in c && x.region == id && x.payload.id == pid {
      var i :| 0 <= i < |c| && c[i] == x;
      WithoutAt(c, CarriedKey, i);
      forall a, b | 0 <= a < b < |c|
        ensures CarriedBoth(c[a]) != CarriedBoth(c[b])
      {
        assert CarriedKey(c[a]) != CarriedKey(c[b]);
      }
      WithoutAt(c, CarriedBoth, i);
    }
    if forall x :: x in c && x.payload.id == pid ==> x.region != id {
      forall i | 0 <= i < |c|
        ensures CarriedBoth(c[i]) != PayloadId(id, pid)
      {
        assert c[i] in c;
      }
      WithoutNone(c, CarriedBoth, PayloadId(id, pid));
    }
  }

  /** Nobody else takes a payload away. */
  lemma {:induction false} RemoveOtherView(rg: Regions, ss: ServiceList, ps: Payloads, id: string, pid: string)
    requires RepValid(rg, ss, ps)
    requires pid in ps.index ==> ps.index[pid] in ps.nodes && IdAt(rg, Some(ps.nodes[ps.index[pid]].region)) != id
    ensures ViewOf(rg, ss, ps) == RemovePayload(ViewOf(rg, ss, ps), id, pid)
  {
    hide Indexed.Valid, Indexed.List, ServiceList.Valid, ServiceList.List, ServiceList.RobinOf, CarriedRows, Without;
    var c := CarriedRows(rg, ps.List());
    PayloadAt(rg, ps, pid);
    CarriedDistinct(rg, ps);
    forall x | x in c && x.payload.id == pid
      ensures x.region != id
    {
      var i :| 0 <= i < |c| && c[i] == x;
      assert CarriedKey(c[i]) == pid;
      OneRow(c, x, ShownPayload(rg, ps.nodes[ps.index[pid]]));
    }
    OwnerWithout(c, id, pid);
  }

  lemma {:induction false} OneRow(c: seq<Carried>, x: Carried, y: Carried)
    requires DistinctKeys(c, CarriedKey) && x in c && y in c && x.payload.id == y.payload.id
    ensures x == y
  {
    var i :| 0 <= i < |c| && c[i] == x;
    var j :| 0 <= j < |c| && c[j] == y;
    assert CarriedKey(c[i]) == CarriedKey(c[j]);
  }

  // Removing a region

  /** The loop over the services from position `k` on, on the table. */
  function DropServicesFrom(t: Table, k: nat, id: string): Table
    requires k <= |t.services|
    decreases |t.services| - k
  {
    if k == |t.services| then t
    else if t.services[k].region == id then
      var u := RemoveService(t, id, t.services[k].service.name);
      if |u.services| < |t.services| && k <= |u.services| then DropServicesFrom(u, k, id) else u
    else DropServicesFrom(t, k + 1, id)
  }

  lemma {:induction false} DropTwice(s: seq<string>, x: string)
    requires NoDup(s)
    ensures Drop(Drop(s, x), x) == Drop(s, x)
    ensures x !in s ==> Drop(s, x) == s
  {
    DropNoDup(s, x);
  }

  lemma {:induction false} RemoveAtWithout<V, K>(s: seq<V>, k: nat, key: V -> K, x: K)
    requires k < |s| && key(s[k]) == x
    ensures RemoveAt(s, k)[..k] == s[..k] && Without(RemoveAt(s, k)[k..], key, x) == Without(s[k..], key, x)
  {
    assert RemoveAt(s, k)[k..] == s[k + 1..];
    assert s[k..][1..] == s[k + 1..];
  }

  /** The loop leaves exactly the rows and providers of the other regions. */
  lemma {:induction false} DropServicesIs(t: Table, k: nat, id: string)
    requires t.Valid() && k <= |t.services|
    requires forall i :: 0 <= i < k ==> t.services[i].region != id
    ensures var u := DropServicesFrom(t, k, id);
            && u == t.(services := t.services[..k] + Without(t.services[k..], ProvidedRegion, id), robin := u.robin)
            && u.robin == DropFromAll(t.robin, id)
    decreases |t.services| - k
  {
    hide Table.Valid, RemoveService, DropFromAll, Without;
    if k == |t.services| {
      EmptyTail(t, id);
      NothingToDrop(t, id);
    } else if t.services[k].region == id {
      var n := t.services[k].service.name;
      RemovedRow(t, k);
      RemoveServiceValid(t, id, n);
      DropServicesIs(RemoveService(t, id, n), k, id);
      RemoveAtWithout(t.services, k, ProvidedRegion, id);
      DropAllTwice(t, id, n);
    } else {
      DropServicesIs(t, k + 1, id);
      KeptRow(t.services, k, id);
    }
  }

  lemma {:induction false} EmptyTail(t: Table, id: string)
    ensures t.services[..|t.services|] + Without(t.services[|t.services|..], ProvidedRegion, id) == t.services
  {
  }

  lemma {:induction false} KeptRow(s: seq<Provided>, k: nat, id: string)
    requires k < |s| && s[k].region != id
    ensures s[..k + 1] + Without(s[k + 1..], ProvidedRegion, id) == s[..k] + Without(s[k..], ProvidedRegion, id)
  {
    assert s[k..][1..] == s[k + 1..];
    assert s[..k + 1] == s[..k] + [s[k]];
  }

  lemma {:induction false} RemovedRow(t: Table, k: nat)
    requires t.Valid() && k < |t.services|
    ensures var u := RemoveService(t, t.services[k].region, t.services[k].service.name);
            u == t.(services := RemoveAt(t.services, k), robin := u.robin)
  {
    hide Table.Valid, Without, DistinctKeys, Drop, WithProviders;
    DistinctServices(t);
    WithoutAt(t.services, ProvidedKey, k);
  }

  lemma {:induction false} DistinctServices(t: Table)
    requires t.Valid()
    ensures DistinctKeys(t.services, ProvidedKey)
  {
  }

  lemma {:induction false} NothingToDrop(t: Table, id: string)
    requires t.Valid() && forall i :: 0 <= i < |t.services| ==> t.services[i].region != id
    ensures DropFromAll(t.robin, id) == t.robin
  {
    hide Drop;
    forall n | n in t.robin
      ensures Drop(t.robin[n], id) == t.robin[n] && t.robin[n] != []
    {
      assert t.Providers(n) == t.robin[n];
      assert id in t.Providers(n) <==> HasKey(t.services, ProvidedKey, ServiceId(id, n));
      DropTwice(t.robin[n], id);
    }
  }

  lemma {:induction false} DropAllTwice(t: Table, id: string, n: string)
    requires t.Valid()
    ensures DropFromAll(RemoveService(t, id, n).robin, id) == DropFromAll(t.robin, id)
  {
    hide Drop, Without, DistinctKeys;
    var r := RemoveService(t, id, n).robin;
    forall m
      ensures ProvidersOf(DropFromAll(r, id), m) == ProvidersOf(DropFromAll(t.robin, id), m)
    {
      DropFromAllProviders(r, id, m);
      DropFromAllProviders(t.robin, id, m);
      WithProvidersOf(t.robin, n, Drop(t.Providers(n), id));
      assert NoDup(t.Providers(m));
      DropTwice(t.Providers(m), id);
    }
    SameRobin(DropFromAll(r, id), DropFromAll(t.robin, id), id, r, t.robin);
  }

  lemma {:induction false} SameRobin(a: Robin, b: Robin, id: string, r: Robin, q: Robin)
    requires a == DropFromAll(r, id) && b == DropFromAll(q, id)
    requires forall m :: ProvidersOf(a, m) == ProvidersOf(b, m)
    ensures a == b
  {
    hide Drop;
    forall m | m in a
      ensures m in b && a[m] == b[m]
    {
      assert ProvidersOf(a, m) == a[m] && a[m] != [];
    }
    forall m | m in b
      ensures m in a
    {
      assert ProvidersOf(b, m) == b[m] && b[m] != [];
    }
  }

  /** When no service or payload points to it any more, the region's node can go. */
  lemma {:induction false} RegionGone(rg: Regions, ss: ServiceList, ps: Payloads, id: string)
    requires RepValid(rg, ss, ps) && id in rg.index
    requires forall h :: h in ss.nodes ==> ss.nodes[h].region != Some(rg.index[id])
    requires forall i :: 0 <= i < |ps.List()| ==> ps.List()[i].region != rg.index[id]
    ensures RepValid(rg.Erase(RegionKey, id), ss, ps)
    ensures ViewOf(rg.Erase(RegionKey, id), ss, ps)
         == ViewOf(rg, ss, ps).(regions := Without(rg.List(), RegionKey, id))
  {
    hide Indexed.Valid, Indexed.List;
    var rg' := rg.Erase(RegionKey, id);
    SameRows(rg, rg', ss);
    assert CarriedRows(rg', ps.List()) == CarriedRows(rg, ps.List());
  }
}
