/** The tracker's routing table: regions, services and payloads in lists ordered by last update, with
    an index each; services and payloads point to their region. */
module TrackerTable {
  import opened Types
  import opened Lists
  import opened IndexedList
  import Keyed
  import opened Package
  import opened TrackerSpec
  import opened TrackerModel
  import opened TrackerGroups
  import opened ServiceNodes
  import opened TrackerNodes

  /** Takes an iterator out of a name's list (`l.erase(lit)`). */
  method EraseIterator(l: seq<nat>, h: nat) returns (r: seq<nat>)
    ensures r == Drop(l, h)
  {
    var i := 0;
    while i < |l|
      invariant i <= |l| && h !in l[..i]
    {
      if l[i] == h {
        assert i == IndexOf(l, h);
        return l[..i] + l[i + 1..];
      }
      i := i + 1;
    }
    return l;
  }

  lemma {:induction false} ReadRegion(rg: Regions, id: string)
    requires rg.Valid(RegionKey)
    ensures var m := Keyed.ByKey(rg.List(), RegionKey, Itself);
            && (id in m <==> id in rg.index)
            && (id in rg.index ==> rg.index[id] in rg.nodes && m[id] == rg.nodes[rg.index[id]])
  {
    hide Indexed.Valid, Indexed.List, Keyed.ByKey;
    RegionAt(rg, id);
    rg.ListKeys(RegionKey);
    Keyed.ByKeyRows(rg.List(), RegionKey, Itself);
    if id in rg.index {
      var v := rg.nodes[rg.index[id]];
      var i :| 0 <= i < |rg.List()| && rg.List()[i] == v;
    }
  }

  lemma {:induction false} ReadPayload(rg: Regions, ps: Payloads, pid: string)
    requires ps.Valid(PayloadNodeKey) && LivePayloads(rg, ps.List())
    ensures var m := Keyed.ByKey(CarriedRows(rg, ps.List()), CarriedKey, CarriedRegion);
            && (pid in m <==> pid in ps.index)
            && (pid in ps.index ==>
                  && ps.index[pid] in ps.nodes && ps.nodes[ps.index[pid]].region in rg.nodes
                  && m[pid] == rg.nodes[ps.nodes[ps.index[pid]].region].id)
  {
    hide Indexed.Valid, Indexed.List, Keyed.ByKey, CarriedRows;
    PayloadAt(rg, ps, pid);
    CarriedDistinct(rg, ps);
    var c := CarriedRows(rg, ps.List());
    Keyed.ByKeyRows(c, CarriedKey, CarriedRegion);
    if pid in ps.index {
      var i :| 0 <= i < |c| && c[i] == ShownPayload(rg, ps.nodes[ps.index[pid]]);
    }
  }

  lemma {:induction false} NamedNodes(rg: Regions, s: ServiceList, name: string)
    requires s.Valid(rg)
    ensures forall h :: h in s.At(name) ==> h in s.nodes && s.nodes[h].service.name == name && s.nodes[h].region.Some?
    ensures name in s.index ==> s.index[name] != []
  {
  }

  lemma {:induction false} ReadEndPoint(rg: Regions, s: ServiceList, h: nat)
    requires s.Valid(rg) && rg.Valid(RegionKey) && h in s.nodes
    ensures var m, k :=
              Keyed.ByKey(s.List(rg), ProvidedKey, ProvidedEndPoint),
              ServiceId(IdAt(rg, s.nodes[h].region), s.nodes[h].service.name);
            k in m && m[k] == s.nodes[h].service.endpoint
  {
    hide Indexed.Valid, Indexed.List, Keyed.ByKey, Rows;
    RowAt(rg, s, h);
    ListDistinct(rg, s);
    Keyed.ByKeyRows(s.List(rg), ProvidedKey, ProvidedEndPoint);
    assert ProvidedKey(s.List(rg)[IndexOf(s.order, h)]) ==
           ServiceId(IdAt(rg, s.nodes[h].region), s.nodes[h].service.name);
  }

  lemma {:induction false} FirstProvider(rg: Regions, s: ServiceList, name: string)
    requires s.At(name) != [] && s.At(name)[0] in s.nodes
    ensures RegionsOf(rg, s.nodes, s.At(name))[0] == IdAt(rg, s.nodes[s.At(name)[0]].region)
  {
  }

  lemma {:induction false} HasIndex(rg: Regions, ss: ServiceList, ps: Payloads, id: string)
    requires RepValid(rg, ss, ps)
    ensures ViewOf(rg, ss, ps).Has(id) <==> id in rg.index
    ensures id in rg.index ==> rg.index[id] in rg.nodes && rg.nodes[rg.index[id]].id == id
  {
    RegionAt(rg, id);
  }

  lemma {:induction false} NodeRegion(rg: Regions, s: ServiceList, h: nat)
    requires s.Valid(rg) && rg.Valid(RegionKey) && h in s.nodes
    ensures IdAt(rg, s.nodes[h].region) in rg.index
  {
    hide Indexed.Valid;
    HandleAt(rg, s.nodes[h].region.value);
  }

  lemma {:induction false} UnknownVersion(t: Table, id: string, v: uint32)
    requires !t.Has(id)
    ensures SetVersion(t, id, v) == t
  {
    assert forall i :: 0 <= i < |t.regions| ==> RegionKey(t.regions[i]) != id;
    assert VersionedRegions(t.regions, id, v) == t.regions;
  }

  /** Removing a service the region does not provide changes nothing. */
  lemma {:induction false} NotProvided(rg: Regions, s: ServiceList, id: string, n: string)
    requires s.Valid(rg) && rg.Valid(RegionKey)
    requires forall h :: h in s.At(n) ==> IdAt(rg, s.nodes[h].region) != id
    ensures Without(s.List(rg), ProvidedKey, ServiceId(id, n)) == s.List(rg)
    ensures WithProviders(s.RobinOf(rg), n, Drop(ProvidersOf(s.RobinOf(rg), n), id)) == s.RobinOf(rg)
  {
    hide Indexed.Valid, Indexed.List, Rows, RegionsOf;
    RegionAt(rg, id);
    if id in rg.index {
      ProvidesIff(rg, s, n, rg.index[id]);
    } else {
      NobodyProvides(rg, s, n, id);
    }
    WithoutNone(s.List(rg), ProvidedKey, ServiceId(id, n));
    ProvidersAt(rg, s, n);
    NamedNodes(rg, s, n);
  }

  lemma {:induction false} NodeRow(rg: Regions, s: ServiceList, k: nat, r: nat)
    requires s.Valid(rg) && rg.Valid(RegionKey) && k < |s.order| && r in rg.nodes
    ensures s.order[k] in s.nodes && s.nodes[s.order[k]].service.name in s.index
    ensures s.index[s.nodes[s.order[k]].service.name] == s.At(s.nodes[s.order[k]].service.name)
    ensures s.List(rg)[k] == Shown(rg, s.nodes[s.order[k]])
    ensures s.nodes[s.order[k]].region == Some(r) <==> s.List(rg)[k].region == rg.nodes[r].id
    ensures IndexOf(s.order, s.order[k]) == k
  {
    var h := s.order[k];
    assert h in s.order;
    RowAt(rg, s, h);
    SameId(rg, s.nodes[h].region.value, r);
    assert h in s.At(s.nodes[h].service.name);
  }

  lemma {:induction false} EraseShrinks(s: ServiceList, h: nat, k: nat)
    requires h in s.nodes && k < |s.order| && s.order[k] == h && IndexOf(s.order, h) == k
    requires forall i :: 0 <= i < k ==> s.order[i] in s.nodes
    ensures |s.Erase(h).order| == |s.order| - 1
    ensures forall i :: 0 <= i < k ==>
                          s.Erase(h).order[i] == s.order[i] && s.order[i] in s.Erase(h).nodes
                          && s.Erase(h).nodes[s.order[i]] == s.nodes[s.order[i]]
  {
  }

  lemma {:induction false} AllNodesSeen(rg: Regions, s: ServiceList)
    requires s.Valid(rg)
    ensures forall h :: h in s.nodes ==> exists i :: 0 <= i < |s.order| && s.order[i] == h
  {
    forall h | h in s.nodes
      ensures exists i :: 0 <= i < |s.order| && s.order[i] == h
    {
      assert h in s.order;
    }
  }

  lemma {:induction false} PayloadRow(ps: Payloads, k: nat)
    requires ps.Valid(PayloadNodeKey) && k < |ps.order|
    ensures ps.order[k] in ps.nodes && ps.nodes[ps.order[k]] == ps.List()[k]
    ensures ps.nodes[ps.order[k]].payload.id in ps.index
    ensures Without(ps.List(), PayloadNodeKey, ps.List()[k].payload.id) == RemoveAt(ps.List(), k)
  {
    hide Without;
    assert ps.order[k] in ps.order;
    ps.ListKeys(PayloadNodeKey);
    WithoutAt(ps.List(), PayloadNodeKey, k);
    assert PayloadNodeKey(ps.nodes[ps.order[k]]) in ps.index;
  }

  lemma {:induction false} WithoutFront(l: seq<RegionPayload>, k: nat, r: nat)
    requires k < |l|
    ensures l[k].region != r ==>
              l[..k + 1] + Without(l[k + 1..], PayloadNodeRegion, r) == l[..k] + Without(l[k..], PayloadNodeRegion, r)
  {
    assert l[k..][1..] == l[k + 1..];
  }

  lemma {:induction false} NothingBehind(l: seq<RegionPayload>, r: nat)
    ensures l[..|l|] + Without(l[|l|..], PayloadNodeRegion, r) == l
  {
  }

  lemma {:induction false} NoneLeft(l: seq<RegionPayload>, r: nat)
    ensures var w := Without(l, PayloadNodeRegion, r); forall i :: 0 <= i < |w| ==> w[i].region != r
  {
    WithoutMembers(l, PayloadNodeRegion, r);
    var w := Without(l, PayloadNodeRegion, r);
    forall i | 0 <= i < |w|
      ensures w[i].region != r
    {
      assert w[i] in w;
    }
  }

  lemma {:induction false} PushedRegion(rg: Regions, r: Region)
    requires rg.Valid(RegionKey) && r.id !in rg.index
    ensures var g := rg.PushBack(RegionKey, r.id, r);
            && rg.next in g.nodes && g.nodes[rg.next] == r
            && forall h :: h in rg.nodes ==> h in g.nodes && g.nodes[h] == rg.nodes[h]
  {
  }

  lemma {:induction false} FrontRegion(rg: Regions)
    requires rg.Valid(RegionKey) && rg.order != []
    ensures rg.order[0] in rg.nodes && rg.List() != [] && rg.List()[0] == rg.nodes[rg.order[0]]
    ensures rg.List()[0].id in rg.index
  {
    assert rg.order[0] in rg.order;
    assert RegionKey(rg.nodes[rg.order[0]]) in rg.index;
  }

  lemma {:induction false} NoRegions(rg: Regions)
    requires rg.Linked()
    ensures rg.order == [] <==> rg.List() == []
  {
  }

  lemma {:induction false} FrontService(rg: Regions, s: ServiceList)
    requires s.Valid(rg) && rg.Valid(RegionKey) && s.order != []
    ensures s.order[0] in s.nodes && s.nodes[s.order[0]].region.Some? && s.nodes[s.order[0]].region.value in rg.nodes
    ensures s.List(rg)[0] == Provided(rg.nodes[s.nodes[s.order[0]].region.value].id, s.nodes[s.order[0]].service)
    ensures s.List(rg)[0].region in rg.index
  {
    assert s.order[0] in s.order;
    HandleAt(rg, s.nodes[s.order[0]].region.value);
  }

  lemma {:induction false} FrontPayload(rg: Regions, ps: Payloads)
    requires ps.Valid(PayloadNodeKey) && LivePayloads(rg, ps.List()) && rg.Valid(RegionKey) && ps.order != []
    ensures ps.order[0] in ps.nodes && ps.nodes[ps.order[0]].region in rg.nodes
    ensures CarriedRows(rg, ps.List())[0] ==
            Carried(rg.nodes[ps.nodes[ps.order[0]].region].id, ps.nodes[ps.order[0]].payload)
    ensures rg.nodes[ps.nodes[ps.order[0]].region].id in rg.index
  {
    assert ps.order[0] in ps.order;
    assert ps.List()[0] == ps.nodes[ps.order[0]];
    HandleAt(rg, ps.List()[0].region);
  }

  lemma {:induction false} NoPayloads(rg: Regions, ps: Payloads)
    requires ps.Linked()
    ensures ps.order == [] <==> CarriedRows(rg, ps.List()) == []
  {
  }

  lemma {:induction false} RegionRow(rg: Regions, k: nat)
    requires rg.Linked() && k < |rg.order|
    ensures rg.order[k] in rg.nodes && rg.List()[k] == rg.nodes[rg.order[k]]
  {
    assert rg.order[k] in rg.order;
  }

  lemma {:induction false} NodesLive(rg: Regions, s: ServiceList, k: nat)
    requires s.Valid(rg) && k < |s.order|
    ensures s.order[k] in s.nodes && s.nodes[s.order[k]].region.Some? && s.nodes[s.order[k]].region.value in rg.nodes
    ensures s.List(rg)[k] == Provided(rg.nodes[s.nodes[s.order[k]].region.value].id, s.nodes[s.order[k]].service)
  {
    assert s.order[k] in s.order;
  }

  lemma {:induction false} PayloadsLive(rg: Regions, ps: Payloads, k: nat)
    requires ps.Valid(PayloadNodeKey) && LivePayloads(rg, ps.List()) && k < |ps.order|
    ensures ps.order[k] in ps.nodes && ps.nodes[ps.order[k]].region in rg.nodes
    ensures CarriedRows(rg, ps.List())[k] ==
            Carried(rg.nodes[ps.nodes[ps.order[k]].region].id, ps.nodes[ps.order[k]].payload)
  {
    assert ps.order[k] in ps.order;
    assert ps.List()[k] == ps.nodes[ps.order[k]];
  }

  class RITrackerTable {
    var regions: Indexed<Region>
    var services: ServiceList
    var payloads: Indexed<RegionPayload>

    ghost predicate Valid()
      reads this
    {
      RepValid(regions, services, payloads)
    }

    ghost function View(): Table
      requires Valid()
      reads this
    {
      ViewOf(regions, services, payloads)
    }

    constructor ()
      ensures Valid() && View() == EMPTY_TABLE
    {
      regions, services, payloads := Empty(), NoServices(), Empty();
    }

    // What readers see is the model

    method Sizes() returns (r: nat, s: nat, p: nat)
      requires Valid()
      ensures View().Valid()
      ensures var m := Abs(View()); r == |m.regions| && s == |m.endpoints| && p == |m.owner|
    {
      hide RepValid, Table.Valid;
      ViewValid(regions, services, payloads);
      AbsRegions(View());
      return |regions.order|, |services.order|, |payloads.order|;
    }

    method GetRegion(id: string) returns (r: Option<Region>)
      requires Valid()
      ensures r == TrackerModel.GetRegion(Abs(View()), id)
    {
      hide Indexed.Valid, Indexed.List, Keyed.ByKey;
      ReadRegion(regions, id);
      if id in regions.index {
        return Some(regions.nodes[regions.index[id]]);
      }
      return None;
    }

    method RoutePayload(id: string) returns (r: Option<EndPoint>)
      requires Valid()
      ensures r == TrackerModel.RoutePayload(Abs(View()), id)
    {
      hide Indexed.Valid, Indexed.List, Keyed.ByKey, ServiceList.Valid, CarriedRows;
      ReadPayload(regions, payloads, id);
      if id in payloads.index {
        var node := payloads.nodes[payloads.index[id]];
        HandleAt(regions, node.region);
        ReadRegion(regions, regions.nodes[node.region].id);
        return Some(regions.nodes[node.region].bus);
      }
      return None;
    }

    /** Routes to the first provider of the name and moves it to the back. */
    method RobinRouteService(name: string) returns (r: Option<EndPoint>)
      requires Valid()
      modifies this`services
      ensures Valid() && View() == RobinRoute(old(View()), name)
      ensures var rs, m := old(View()).Providers(name), Abs(View());
              && (r == None <==> rs == [])
              && (r != None ==> ServiceId(rs[0], name) in m.endpoints && r == Some(m.endpoints[ServiceId(rs[0], name)]))
    {
      hide Indexed.Valid, Indexed.List, Keyed.ByKey, ServiceList.Valid, Rows, RegionsOf, CarriedRows;
      ProvidersAt(regions, services, name);
      NamedNodes(regions, services, name);
      r := None;
      if name in services.index {
        var l := services.index[name];
        if l != [] {
          r := Some(services.nodes[l[0]].service.endpoint);
          RotateValid(regions, services, name);
          RotateView(regions, services, name);
          ReadEndPoint(regions, services, l[0]);
          FirstProvider(regions, services, name);
          services := services.Rotate(name);
        }
      }
    }

    /** The node of the region among the iterators of a name.  No region pointer is null. */
    method FindRegionService(l: seq<nat>, region: string) returns (r: Option<nat>)
      requires Valid() && forall h :: h in l ==> h in services.nodes
      ensures r == None ==> forall h :: h in l ==> IdAt(regions, services.nodes[h].region) != region
      ensures r != None ==> r.value in l && IdAt(regions, services.nodes[r.value].region) == region
    {
      hide Indexed.Valid;
      var i := 0;
      while i < |l|
        invariant i <= |l|
        invariant forall h :: h in l[..i] ==> IdAt(regions, services.nodes[h].region) != region
      {
        assert l[i] in l;
        match services.nodes[l[i]].region
        case None =>
          assert false;
        case Some(p) =>
          if regions.nodes[p].id == region {
            return Some(l[i]);
          }
          i := i + 1;
      }
      assert l[..|l|] == l;
      return None;
    }

    /** A service of the region at handle `r`: a new node, or the node the region has. */
    method PutServiceNode(r: nat, svc: Service)
      requires Valid() && r in regions.nodes
      modifies this`services
      ensures Valid() && View() == PutService(old(View()), regions.nodes[r].id, svc)
    {
      hide Indexed.Valid, Indexed.List, ServiceList.Valid, ServiceList.List, ServiceList.RobinOf, CarriedRows, Without;
      NamedNodes(regions, services, svc.name);
      if svc.name !in services.index {
        InsertValid(regions, services, r, svc);
        InsertView(regions, services, r, svc);
        services := services.Insert(r, svc);
      } else {
        var l := services.index[svc.name];
        var lit := FindRegionService(l, regions.nodes[r].id);
        if lit != None {
          TouchValid(regions, services, lit.value, svc);
          TouchView(regions, services, lit.value, svc);
          services := services.Touch(lit.value, svc);
        } else {
          InsertValid(regions, services, r, svc);
          InsertView(regions, services, r, svc);
          services := services.Insert(r, svc);
        }
      }
    }

    /** A payload of the region at handle `r`: a new node, or the node of its last owner. */
    method PutPayloadNode(r: nat, pl: Payload)
      requires Valid() && r in regions.nodes
      modifies this`payloads
      ensures Valid() && View() == PutPayload(old(View()), regions.nodes[r].id, pl)
    {
      hide Indexed.Valid, Indexed.List, Indexed.Linked, ServiceList.Valid, ServiceList.List, ServiceList.RobinOf,
        CarriedRows, Without, LivePayloads,
        Indexed.PushBack, Indexed.MoveToBack, ViewOf, PutPayload;
      payloads.Lookup(PayloadNodeKey, pl.id);
      var ps := payloads;
      if pl.id !in payloads.index {
        WithoutNone(payloads.List(), PayloadNodeKey, pl.id);
        payloads := payloads.PushBack(PayloadNodeKey, pl.id, RegionPayload(r, pl));
      } else {
        payloads := payloads.MoveToBack(PayloadNodeKey, pl.id, RegionPayload(r, pl));
      }
      PutPayloadView(regions, services, ps, payloads, r, pl);
    }

    /** An unknown region is only logged: nothing changes. */
    method UpdateRegionVersion(id: string, version: uint32)
      requires Valid()
      modifies this`regions
      ensures Valid() && View() == SetVersion(old(View()), id, version)
      ensures !old(View()).Has(id) ==> View() == old(View())
      ensures forall x :: x in regions.index <==> x in old(regions.index)
    {
      hide Indexed.Valid, Indexed.List, Indexed.Linked, ServiceList.Valid, CarriedRows, LivePayloads, ViewOf,
        SetVersion;
      HasIndex(regions, services, payloads, id);
      if id in regions.index {
        VersionView(regions, services, payloads, id, version);
        regions := regions.Replace(RegionKey, id, regions.nodes[regions.index[id]].(version := version));
      } else {
        UnknownVersion(View(), id, version);
      }
    }

    // Publications.  The result says whether the publication is handed on to the next handler.

    method OnRegion(reg: Region) returns (forward: bool)
      requires Valid()
      modifies this`regions
      ensures Valid() && View() == TrackerSpec.OnRegion(old(View()), reg)
      ensures forward == !old(View()).Has(reg.id)
    {
      hide Indexed.Valid, Indexed.List, Indexed.Linked, ServiceList.Valid, CarriedRows, Without, LivePayloads,
        Indexed.MoveToBack;
      RegionAt(regions, reg.id);
      if reg.id !in regions.index {
        return true;
      }
      var rg := regions.MoveToBack(RegionKey, reg.id, reg);
      RegionsGrow(regions, rg, services, payloads);
      regions := rg;
      return false;
    }

    method OnRmRegion(reg: string) returns (forward: bool)
      requires Valid()
      modifies this
      ensures Valid() && View() == TrackerSpec.OnRmRegion(old(View()), reg)
      ensures forward == !old(View()).Has(reg)
    {
      hide RepValid, ViewOf, DropRegion;
      HasIndex(regions, services, payloads, reg);
      if reg !in regions.index {
        return true;
      }
      DoRmRegion(reg);
      return false;
    }

    method OnService(reg: string, version: uint32, svc: Service) returns (forward: bool)
      requires Valid()
      modifies this`services, this`regions
      ensures Valid() && View() == TrackerSpec.OnService(old(View()), reg, version, svc)
      ensures forward == !old(View()).Has(reg)
    {
      hide RepValid, ViewOf, SetVersion, PutService;
      HasIndex(regions, services, payloads, reg);
      if reg !in regions.index {
        return true;
      }
      PutServiceNode(regions.index[reg], svc);
      UpdateRegionVersion(reg, version);
      return false;
    }

    method OnRmService(reg: string, version: uint32, svc: string) returns (forward: bool)
      requires Valid()
      modifies this`services, this`regions
      ensures Valid() && View() == TrackerSpec.OnRmService(old(View()), reg, version, svc)
      ensures forward == !old(View()).Has(reg)
    {
      hide RepValid, ViewOf, SetVersion, RemoveService;
      HasIndex(regions, services, payloads, reg);
      if reg !in regions.index {
        return true;
      }
      DoRmService(reg, svc);
      UpdateRegionVersion(reg, version);
      return false;
    }

    method OnPayload(reg: string, version: uint32, pl: Payload) returns (forward: bool)
      requires Valid()
      modifies this`payloads, this`regions
      ensures Valid() && View() == TrackerSpec.OnPayload(old(View()), reg, version, pl)
      ensures forward == !old(View()).Has(reg)
    {
      hide RepValid, ViewOf, SetVersion, PutPayload;
      HasIndex(regions, services, payloads, reg);
      if reg !in regions.index {
        return true;
      }
      PutPayloadNode(regions.index[reg], pl);
      UpdateRegionVersion(reg, version);
      return false;
    }

    method OnRmPayload(reg: string, version: uint32, pl: string) returns (forward: bool)
      requires Valid()
      modifies this`payloads, this`regions
      ensures Valid() && View() == TrackerSpec.OnRmPayload(old(View()), reg, version, pl)
      ensures forward == !old(View()).Has(reg)
    {
      hide RepValid, ViewOf, SetVersion, RemovePayload;
      HasIndex(regions, services, payloads, reg);
      if reg !in regions.index {
        return true;
      }
      DoRmPayload(reg, pl);
      UpdateRegionVersion(reg, version);
      return false;
    }

    /** A region that is unknown or does not provide the service is only logged. */
    method DoRmService(region: string, svc: string)
      requires Valid()
      modifies this`services
      ensures Valid() && View() == RemoveService(old(View()), region, svc)
      ensures !old(View()).Has(region) ==> View() == old(View())
    {
      hide Indexed.Valid, Indexed.List, ServiceList.Valid, ServiceList.List, ServiceList.RobinOf, CarriedRows,
        Without, Drop, WithProviders;
      NamedNodes(regions, services, svc);
      HasIndex(regions, services, payloads, region);
      if svc !in services.index {
        NotProvided(regions, services, region, svc);
      } else {
        var l := services.index[svc];
        var lit := FindRegionService(l, region);
        if lit != None {
          NodeRegion(regions, services, lit.value);
          EraseValid(regions, services, lit.value);
          EraseView(regions, services, lit.value);
          services := services.Erase(lit.value);
        } else {
          NotProvided(regions, services, region, svc);
        }
      }
    }

    method DoRmPayload(region: string, pl: string)
      requires Valid()
      modifies this`payloads
      ensures Valid()
      ensures old(View()).Has(region) ==> View() == RemovePayload(old(View()), region, pl)
      ensures !old(View()).Has(region) ==> View() == old(View())
    {
      hide Indexed.Valid, Indexed.List, Indexed.Linked, ServiceList.Valid, ServiceList.List, ServiceList.RobinOf,
        CarriedRows, Without, Indexed.Erase, RemovePayload;
      RegionAt(regions, region);
      PayloadAt(regions, payloads, pl);
      if region in regions.index {
        if pl !in payloads.index {
          RemoveOtherView(regions, services, payloads, region, pl);
        } else {
          var h := payloads.index[pl];
          if payloads.nodes[h].region == regions.index[region] {
            RemoveOwnView(regions, services, payloads, pl);
            payloads := payloads.Erase(PayloadNodeKey, pl);
          } else {
            SameId(regions, payloads.nodes[h].region, regions.index[region]);
            RemoveOtherView(regions, services, payloads, region, pl);
          }
        }
      }
    }

    /** Removes the region's services, from the list and from the index; `rg` still has the region. */
    method RmServicesOf(ghost rg: Regions, r: nat)
      requires RepValid(rg, services, payloads) && r in rg.nodes
      modifies this`services
      ensures RepValid(rg, services, payloads)
      ensures ViewOf(rg, services, payloads) == DropServicesFrom(old(ViewOf(rg, services, payloads)), 0, rg.nodes[r].id)
      ensures forall h :: h in services.nodes ==> services.nodes[h].region != Some(r)
    {
      hide Indexed.Valid, Indexed.List, ServiceList.Valid, ServiceList.List, ServiceList.RobinOf, CarriedRows,
        Without, Drop, WithProviders;
      ghost var t, id := ViewOf(rg, services, payloads), rg.nodes[r].id;
      var k := 0;
      while k < |services.order|
        invariant RepValid(rg, services, payloads) && k <= |services.order|
        invariant |services.order| == |ViewOf(rg, services, payloads).services|
        invariant DropServicesFrom(ViewOf(rg, services, payloads), k, id) == DropServicesFrom(t, 0, id)
        invariant forall i :: 0 <= i < k ==>
                                services.order[i] in services.nodes
                                && services.nodes[services.order[i]].region != Some(r)
        decreases |services.order| - k
      {
        var scit := services.order[k];
        NodeRow(rg, services, k, r);
        if services.nodes[scit].region == Some(r) {
          var name := services.nodes[scit].service.name;
          assert name in services.index;
          var l := EraseIterator(services.index[name], scit);
          EraseValid(rg, services, scit);
          EraseView(rg, services, scit);
          EraseShrinks(services, scit, k);
          services := ServiceList(Drop(services.order, scit), services.nodes - {scit},
                                  if l == [] then services.index - {name}
                                  else services.index[name := l], services.next);
        } else {
          k := k + 1;
        }
      }
      AllNodesSeen(rg, services);
    }

    /** Removes the region's payloads, from the list and from the index; `rg` still has the region. */
    method RmPayloadsOf(ghost rg: Regions, r: nat)
      requires RepValid(rg, services, payloads) && r in rg.nodes
      modifies this`payloads
      ensures RepValid(rg, services, payloads)
      ensures payloads.List() == Without(old(payloads.List()), PayloadNodeRegion, r)
    {
      hide Indexed.Valid, ServiceList.Valid, CarriedRows, Without, Drop, LivePayloads, Indexed.Erase;
      ghost var l := payloads.List();
      var k := 0;
      assert l[..0] + Without(l[0..], PayloadNodeRegion, r) == Without(l, PayloadNodeRegion, r);
      while k < |payloads.order|
        invariant RepValid(rg, services, payloads) && k <= |payloads.order|
        invariant payloads.List()[..k] + Without(payloads.List()[k..], PayloadNodeRegion, r) ==
                  Without(l, PayloadNodeRegion, r)
        decreases |payloads.order| - k
      {
        var pcit := payloads.order[k];
        var node := payloads.nodes[pcit];
        PayloadRow(payloads, k);
        WithoutFront(payloads.List(), k, r);
        if node.region == r {
          LiveWithout(rg, payloads.List(), PayloadNodeKey, node.payload.id);
          RemoveAtWithout(payloads.List(), k, PayloadNodeRegion, r);
          payloads := payloads.Erase(PayloadNodeKey, node.payload.id);
        } else {
          k := k + 1;
        }
      }
      NothingBehind(payloads.List(), r);
    }

    /** The region goes first; its node is what the services and payloads that go with it point to. */
    method DoRmRegion(region: string)
      requires Valid() && region in regions.index
      modifies this
      ensures Valid() && View() == DropRegion(old(View()), region)
    {
      hide Indexed.Valid, Indexed.List, Indexed.Linked, ServiceList.Valid, ServiceList.List, ServiceList.RobinOf,
        CarriedRows, Without, LivePayloads, Indexed.Erase, Table.Valid, DropServicesFrom, DropFromAll;
      var regptr := regions.index[region];
      RegionAt(regions, region);
      ViewValid(regions, services, payloads);
      DropServicesIs(View(), 0, region);
      ghost var rg := regions;
      regions := regions.Erase(RegionKey, region);
      RmServicesOf(rg, regptr);
      CarriedWithoutRegion(rg, payloads.List(), regptr);
      ghost var l := payloads.List();
      RmPayloadsOf(rg, regptr);
      NoneLeft(l, regptr);
      RegionGone(rg, services, payloads, region);
    }

    /** Takes over a synchronised region with its services and payloads, in order. */
    method Merge(region: Region, svcs: seq<Service>, pls: seq<Payload>) returns (result: int)
      requires Valid()
      modifies this
      ensures Valid() && View() == TrackerSpec.Merge(old(View()), region, svcs, pls)
      ensures result == if old(View()).Has(region.id) then -1 else 0
    {
      hide Indexed.Valid, Indexed.List, Indexed.Linked, ServiceList.Valid, ServiceList.List, ServiceList.RobinOf,
        CarriedRows, LivePayloads, Indexed.PushBack, PutService, PutPayload;
      HasIndex(regions, services, payloads, region.id);
      if region.id in regions.index {
        return -1;
      }
      ghost var t := View();
      var rg, regit := regions.PushBack(RegionKey, region.id, region), regions.next;
      PushedRegion(regions, region);
      RegionsGrow(regions, rg, services, payloads);
      regions := rg;
      ghost var t1 := View();
      var it := 0;
      while it < |svcs|
        invariant it <= |svcs| && Valid() && regions == rg
        invariant View() == PutServices(t1, region.id, svcs[..it])
      {
        PutServiceNode(regit, svcs[it]);
        assert svcs[..it + 1][..it] == svcs[..it];
        it := it + 1;
      }
      assert svcs[..|svcs|] == svcs;
      ghost var t2 := View();
      it := 0;
      while it < |pls|
        invariant it <= |pls| && Valid() && regions == rg
        invariant View() == PutPayloads(t2, region.id, pls[..it])
      {
        PutPayloadNode(regit, pls[it]);
        assert pls[..it + 1][..it] == pls[..it];
        it := it + 1;
      }
      assert pls[..|pls|] == pls;
      return 0;
    }

    /** Every 20 ms: up to 3 regions, 100 services and 100 payloads are expired. */
    method OnCheckTimer(now: nat)
      requires Valid()
      modifies this
      ensures Valid() && View() == CheckTimer(old(View()), now)
    {
      CheckRegions(now);
      CheckServices(now);
      CheckPayloads(now);
    }

    method CheckRegions(now: nat)
      requires Valid()
      modifies this
      ensures Valid() && View() == ExpireRegions(old(View()), 3, now)
    {
      hide Indexed.Valid, Indexed.List, Indexed.Linked, ServiceList.Valid, ServiceList.List, ServiceList.RobinOf,
        CarriedRows, LivePayloads, DropRegion;
      ghost var t := View();
      var limits := 3;
      while limits != 0 && regions.order != []
        invariant 0 <= limits && Valid()
        invariant ExpireRegions(View(), limits, now) == ExpireRegions(t, 3, now)
        decreases limits
      {
        FrontRegion(regions);
        var region := regions.nodes[regions.order[0]];
        if region.timeval + REGION_TIMEOUT_MS <= now {
          DoRmRegion(region.id);
          limits := limits - 1;
        } else {
          break;
        }
      }
      NoRegions(regions);
    }

    method CheckServices(now: nat)
      requires Valid()
      modifies this
      ensures Valid() && View() == ExpireServices(old(View()), 100, now)
    {
      hide Indexed.Valid, Indexed.List, Indexed.Linked, ServiceList.Valid, ServiceList.List, ServiceList.RobinOf,
        CarriedRows, LivePayloads, RemoveService;
      ghost var t := View();
      var limits := 100;
      while limits != 0 && services.order != []
        invariant 0 <= limits && Valid()
        invariant ExpireServices(View(), limits, now) == ExpireServices(t, 100, now)
        decreases limits
      {
        FrontService(regions, services);
        var front := services.nodes[services.order[0]];
        var region := regions.nodes[front.region.value];
        if front.service.timeval + SERVICE_TIMEOUT_MS <= now {
          DoRmService(region.id, front.service.name);
          limits := limits - 1;
        } else {
          break;
        }
      }
    }

    method CheckPayloads(now: nat)
      requires Valid()
      modifies this
      ensures Valid() && View() == ExpirePayloads(old(View()), 100, now)
    {
      hide Indexed.Valid, Indexed.List, Indexed.Linked, ServiceList.Valid, ServiceList.List, ServiceList.RobinOf,
        CarriedRows, LivePayloads, RemovePayload;
      ghost var t := View();
      var limits := 100;
      while limits != 0 && payloads.order != []
        invariant 0 <= limits && Valid()
        invariant ExpirePayloads(View(), limits, now) == ExpirePayloads(t, 100, now)
        decreases limits
      {
        FrontPayload(regions, payloads);
        var front := payloads.nodes[payloads.order[0]];
        var region := regions.nodes[front.region];
        HasIndex(regions, services, payloads, region.id);
        if front.payload.timeval + PAYLOAD_TIMEOUT_MS <= now {
          DoRmPayload(region.id, front.payload.id);
          limits := limits - 1;
        } else {
          break;
        }
      }
      NoPayloads(regions, payloads);
    }

    /** Sorts the services by region, each region's in list order. */
    method ServicesByRegion() returns (m: map<string, seq<Service>>)
      requires Valid()
      ensures forall id :: At(m, id) == ServicesOf(View().services, id)
    {
      hide Indexed.Valid, ServiceList.Valid, ServiceList.RobinOf, LivePayloads, ServiceList.List;
      ghost var rows := View().services;
      m := map[];
      var it := 0;
      while it < |services.order|
        invariant it <= |services.order|
        invariant forall id :: At(m, id) == ServicesOf(rows[..it], id)
      {
        NodesLive(regions, services, it);
        var node := services.nodes[services.order[it]];
        var id := regions.nodes[node.region.value].id;
        assert rows[..it + 1][..it] == rows[..it];
        m := m[id := At(m, id) + [node.service]];
        it := it + 1;
      }
      assert rows[..|services.order|] == rows;
    }

    method PayloadsByRegion() returns (m: map<string, seq<Payload>>)
      requires Valid()
      ensures forall id :: At(m, id) == PayloadsOf(View().payloads, id)
    {
      hide Indexed.Valid, ServiceList.Valid, ServiceList.RobinOf, LivePayloads, ServiceList.List, CarriedRows;
      ghost var rows := View().payloads;
      m := map[];
      var it := 0;
      while it < |payloads.order|
        invariant it <= |payloads.order|
        invariant forall id :: At(m, id) == PayloadsOf(rows[..it], id)
      {
        PayloadsLive(regions, payloads, it);
        var node := payloads.nodes[payloads.order[it]];
        var id := regions.nodes[node.region].id;
        assert rows[..it + 1][..it] == rows[..it];
        m := m[id := At(m, id) + [node.payload]];
        it := it + 1;
      }
      assert rows[..|payloads.order|] == rows;
    }

    /** Each region with its services and payloads in list order, regions in list order. */
    method BuildSnapshot() returns (package: seq<Item>)
      requires Valid()
      ensures package == PackageOf(GroupsOf(View()))
    {
      hide RepValid, Indexed.List, ServiceList.RobinOf, ServiceList.List, CarriedRows, GroupItems, ServicesOf,
        PayloadsOf, At;
      ghost var gs := GroupsOf(View());
      package := [SnapshotBegin];
      var regionServices := ServicesByRegion();
      var regionPayloads := PayloadsByRegion();
      var it := 0;
      assert gs[..0] == [];
      while it < |regions.order|
        invariant it <= |regions.order|
        invariant package == [SnapshotBegin] + GroupsItems(gs[..it])
      {
        RegionRow(regions, it);
        var region := regions.nodes[regions.order[it]];
        var items := RegionItems(region, At(regionServices, region.id), At(regionPayloads, region.id));
        assert items == GroupItems(gs[it]);
        GroupsItemsAppend(gs[..it], gs[it]);
        assert gs[..it + 1] == gs[..it] + [gs[it]];
        package := package + items;
        it := it + 1;
      }
      assert gs[..|regions.order|] == gs;
      package := package + [SnapshotEnd];
    }
  }

  /** `m[id]`, which inserts an empty list for a new id. */
  function At<T>(m: map<string, seq<T>>, id: string): seq<T> {
    if id in m then m[id] else []
  }

  /** The items of one region. */
  method RegionItems(region: Region, svcs: seq<Service>, pls: seq<Payload>) returns (items: seq<Item>)
    ensures items == GroupItems(Group(region, svcs, pls))
  {
    items := [RegionBegin(region.Wire())];
    var it := 0;
    while it < |svcs|
      invariant it <= |svcs|
      invariant items == [RegionBegin(region.Wire())] + ServiceItems(svcs[..it])
    {
      assert svcs[..it + 1] == svcs[..it] + [svcs[it]];
      ServiceItemsAppend(svcs[..it], svcs[it]);
      items := items + [ServiceItem(svcs[it].Wire())];
      it := it + 1;
    }
    assert svcs[..|svcs|] == svcs;
    it := 0;
    while it < |pls|
      invariant it <= |pls|
      invariant items == [RegionBegin(region.Wire())] + ServiceItems(svcs) + PayloadItems(pls[..it])
    {
      assert pls[..it + 1] == pls[..it] + [pls[it]];
      PayloadItemsAppend(pls[..it], pls[it]);
      items := items + [PayloadItem(pls[it].id)];
      it := it + 1;
    }
    assert pls[..|pls|] == pls;
    items := items + [RegionEnd(region.id, region.version)];
  }
}
