/** Every operation keeps the tracker table's representation invariant. */
module TrackerInvariant {
  import opened Types
  import opened Lists
  import opened Keyed
  import opened TrackerSpec

  lemma {:induction false} WithoutHas<V, K, L>(s: seq<V>, key: V -> K, k: K, other: V -> L, l: L)
    ensures HasKey(Without(s, other, l), key, k) <==> exists i :: 0 <= i < |s| && key(s[i]) == k && other(s[i]) != l
  {
    WithoutMembers(s, other, l);
    var w := Without(s, other, l);
    if HasKey(w, key, k) {
      var j :| 0 <= j < |w| && key(w[j]) == k;
      assert w[j] in s;
    }
    if i :| 0 <= i < |s| && key(s[i]) == k && other(s[i]) != l {
      assert s[i] in w;
      var j :| 0 <= j < |w| && w[j] == s[i];
      assert key(w[j]) == k;
    }
  }

  lemma {:induction false} HasAppend<V, K>(s: seq<V>, x: V, key: V -> K, k: K)
    ensures HasKey(s + [x], key, k) <==> HasKey(s, key, k) || key(x) == k
  {
    var t := s + [x];
    if HasKey(s, key, k) {
      var i :| 0 <= i < |s| && key(s[i]) == k;
      assert key(t[i]) == k;
    }
    assert t[|s|] == x;
  }

  /** After a removal by its own key, a list has exactly the other keys. */
  lemma {:induction false} WithoutOwnHas<V, K>(s: seq<V>, key: V -> K, k: K, x: K)
    ensures HasKey(Without(s, key, k), key, x) <==> HasKey(s, key, x) && x != k
  {
    WithoutHas(s, key, x, key, k);
  }

  /** After a record was put, a list has its key and the keys it had before. */
  lemma {:induction false} PutHas<V, K>(s: seq<V>, key: V -> K, v: V, x: K)
    ensures HasKey(Without(s, key, key(v)) + [v], key, x) <==> HasKey(s, key, x) || x == key(v)
  {
    WithoutOwnHas(s, key, key(v), x);
    HasAppend(Without(s, key, key(v)), v, key, x);
  }

  lemma {:induction false} VersionedHas(rs: seq<Region>, id: string, v: uint32, x: string)
    ensures HasKey(VersionedRegions(rs, id, v), RegionKey, x) <==> HasKey(rs, RegionKey, x)
    ensures DistinctKeys(rs, RegionKey) ==> DistinctKeys(VersionedRegions(rs, id, v), RegionKey)
  {
    var r := VersionedRegions(rs, id, v);
    forall i | 0 <= i < |rs|
      ensures RegionKey(r[i]) == RegionKey(rs[i])
    {
    }
  }

  lemma {:induction false} SetVersionValid(t: Table, id: string, v: uint32)
    requires t.Valid()
    ensures SetVersion(t, id, v).Valid()
    ensures forall x :: SetVersion(t, id, v).Has(x) <==> t.Has(x)
  {
    hide DistinctKeys, HasKey, NoDup, VersionedRegions;
    forall x
      ensures SetVersion(t, id, v).Has(x) <==> t.Has(x)
    {
      VersionedHas(t.regions, id, v, x);
    }
    VersionedHas(t.regions, id, v, "");
    assert forall n :: SetVersion(t, id, v).Providers(n) == t.Providers(n);
  }

  lemma {:induction false} WithProvidersOf(robin: Robin, name: string, rs: seq<string>)
    ensures forall n ::
              ProvidersOf(WithProviders(robin, name, rs), n) == if n == name then rs else ProvidersOf(robin, n)
  {
  }

  lemma {:induction false} NoneEmpty(robin: Robin, name: string, rs: seq<string>)
    requires forall n :: n in robin ==> robin[n] != []
    ensures forall n :: n in WithProviders(robin, name, rs) ==> WithProviders(robin, name, rs)[n] != []
  {
  }

  lemma {:induction false} PutServiceValid(t: Table, id: string, svc: Service)
    requires t.Valid() && t.Has(id)
    ensures PutService(t, id, svc).Valid()
    ensures PutService(t, id, svc).regions == t.regions
  {
    hide DistinctKeys, HasKey, NoDup, Without, ProvidersOf, WithProviders, Joined;
    var u, p := PutService(t, id, svc), Provided(id, svc);
    var rs := t.Providers(svc.name);
    WithProvidersOf(t.robin, svc.name, Joined(rs, id));
    NoneEmpty(t.robin, svc.name, Joined(rs, id));
    JoinedNoDup(rs, id);
    assert forall n :: u.Providers(n) == if n == svc.name then Joined(rs, id) else t.Providers(n);
    PutDistinct(t.services, ProvidedKey, p);
    WithoutMembers(t.services, ProvidedKey, ProvidedKey(p));
    assert u.Live() by {
      forall i | 0 <= i < |u.services|
        ensures u.Has(u.services[i].region)
      {
        assert u.services[i] in u.services;
      }
    }
    forall n, r
      ensures r in u.Providers(n) <==> HasKey(u.services, ProvidedKey, ServiceId(r, n))
    {
      PutHas(t.services, ProvidedKey, p, ServiceId(r, n));
    }
  }

  lemma {:induction false} JoinedNoDup(s: seq<string>, x: string)
    requires NoDup(s)
    ensures NoDup(Joined(s, x)) && forall y :: y in Joined(s, x) <==> y in s || y == x
  {
  }

  lemma {:induction false} RemoveServiceValid(t: Table, id: string, name: string)
    requires t.Valid()
    ensures RemoveService(t, id, name).Valid()
    ensures RemoveService(t, id, name).regions == t.regions
  {
    hide DistinctKeys, HasKey, NoDup, Without, Drop, ProvidersOf, WithProviders, Joined;
    var u := RemoveService(t, id, name);
    WithProvidersOf(t.robin, name, Drop(t.Providers(name), id));
    NoneEmpty(t.robin, name, Drop(t.Providers(name), id));
    assert forall n :: u.Providers(n) == if n == name then Drop(t.Providers(name), id) else t.Providers(n);
    WithoutDistinct(t.services, ProvidedKey, ServiceId(id, name));
    WithoutMembers(t.services, ProvidedKey, ServiceId(id, name));
    assert u.Live() by {
      forall i | 0 <= i < |u.services|
        ensures u.Has(u.services[i].region)
      {
        assert u.services[i] in u.services;
      }
    }
    DropNoDup(t.Providers(name), id);
    forall n, r
      ensures r in u.Providers(n) <==> HasKey(u.services, ProvidedKey, ServiceId(r, n))
    {
      WithoutOwnHas(t.services, ProvidedKey, ServiceId(id, name), ServiceId(r, n));
    }
  }

  lemma {:induction false} PutPayloadValid(t: Table, id: string, pl: Payload)
    requires t.Valid() && t.Has(id)
    ensures PutPayload(t, id, pl).Valid()
    ensures PutPayload(t, id, pl).regions == t.regions
  {
    hide DistinctKeys, HasKey, NoDup, Without;
    var u := PutPayload(t, id, pl);
    PutDistinct(t.payloads, CarriedKey, Carried(id, pl));
    WithoutMembers(t.payloads, CarriedKey, pl.id);
    assert u.Live() by {
      forall i | 0 <= i < |u.payloads|
        ensures u.Has(u.payloads[i].region)
      {
        assert u.payloads[i] in u.payloads;
      }
    }
    assert forall n :: u.Providers(n) == t.Providers(n);
  }

  lemma {:induction false} RemovePayloadValid(t: Table, id: string, pid: string)
    requires t.Valid()
    ensures RemovePayload(t, id, pid).Valid()
    ensures RemovePayload(t, id, pid).regions == t.regions
  {
    hide DistinctKeys, HasKey, NoDup, Without;
    var u := RemovePayload(t, id, pid);
    WithoutSubDistinct(t.payloads, CarriedKey, CarriedBoth, PayloadId(id, pid));
    WithoutMembers(t.payloads, CarriedBoth, PayloadId(id, pid));
    assert u.Live() by {
      forall i | 0 <= i < |u.payloads|
        ensures u.Has(u.payloads[i].region)
      {
        assert u.payloads[i] in u.payloads;
      }
    }
    assert forall n :: u.Providers(n) == t.Providers(n);
  }

  lemma {:induction false} DropFromAllProviders(robin: Robin, id: string, n: string)
    ensures ProvidersOf(DropFromAll(robin, id), n) == Drop(ProvidersOf(robin, n), id)
    ensures n in DropFromAll(robin, id) ==> DropFromAll(robin, id)[n] != []
  {
  }

  lemma {:induction false} DropRegionValid(t: Table, id: string)
    requires t.Valid()
    ensures DropRegion(t, id).Valid()
    ensures forall x :: DropRegion(t, id).Has(x) <==> t.Has(x) && x != id
  {
    hide DistinctKeys, HasKey, NoDup, Without, DropFromAll, Drop;
    var u := DropRegion(t, id);
    WithoutDistinct(t.regions, RegionKey, id);
    WithoutSubDistinct(t.services, ProvidedKey, ProvidedRegion, id);
    WithoutSubDistinct(t.payloads, CarriedKey, CarriedRegion, id);
    forall x
      ensures u.Has(x) <==> t.Has(x) && x != id
    {
      WithoutOwnHas(t.regions, RegionKey, id, x);
    }
    DropRegionLive(t, id);
    forall n
      ensures NoDup(u.Providers(n))
      ensures n in u.robin ==> u.robin[n] != []
    {
      DropFromAllProviders(t.robin, id, n);
      DropNoDup(t.Providers(n), id);
    }
    forall n, r
      ensures r in u.Providers(n) <==> HasKey(u.services, ProvidedKey, ServiceId(r, n))
    {
      DropRegionProvides(t, id, n, r);
    }
  }

  lemma {:induction false} DropRegionLive(t: Table, id: string)
    requires t.Live()
    ensures DropRegion(t, id).Live()
  {
    hide Without, HasKey, DropFromAll;
    var u := DropRegion(t, id);
    WithoutMembers(t.services, ProvidedRegion, id);
    WithoutMembers(t.payloads, CarriedRegion, id);
    forall i | 0 <= i < |u.services|
      ensures u.Has(u.services[i].region)
    {
      assert u.services[i] in u.services;
      WithoutOwnHas(t.regions, RegionKey, id, u.services[i].region);
    }
    forall i | 0 <= i < |u.payloads|
      ensures u.Has(u.payloads[i].region)
    {
      assert u.payloads[i] in u.payloads;
      WithoutOwnHas(t.regions, RegionKey, id, u.payloads[i].region);
    }
  }

  lemma {:induction false} DropRegionProvides(t: Table, id: string, n: string, r: string)
    requires t.RobinValid()
    ensures r in DropRegion(t, id).Providers(n) <==> HasKey(DropRegion(t, id).services, ProvidedKey, ServiceId(r, n))
  {
    hide Without, DropFromAll, Drop;
    DropFromAllProviders(t.robin, id, n);
    DropNoDup(t.Providers(n), id);
    WithoutHas(t.services, ProvidedKey, ServiceId(r, n), ProvidedRegion, id);
    assert r in t.Providers(n) <==> HasKey(t.services, ProvidedKey, ServiceId(r, n));
  }

  lemma {:induction false} OnRegionValid(t: Table, r: Region)
    requires t.Valid()
    ensures OnRegion(t, r).Valid()
    ensures forall x :: OnRegion(t, r).Has(x) <==> t.Has(x)
  {
    hide DistinctKeys, HasKey, NoDup, Without;
    if t.Has(r.id) {
      var u := OnRegion(t, r);
      PutDistinct(t.regions, RegionKey, r);
      forall x
        ensures u.Has(x) <==> t.Has(x)
      {
        PutHas(t.regions, RegionKey, r, x);
      }
      assert forall n :: u.Providers(n) == t.Providers(n);
    }
  }

  lemma {:induction false} RobinRouteValid(t: Table, name: string)
    requires t.Valid()
    ensures RobinRoute(t, name).Valid()
  {
    hide DistinctKeys, HasKey;
    var rs, u := t.Providers(name), RobinRoute(t, name);
    if rs != [] {
      assert rs == [rs[0]] + rs[1..];
      var q := rs[1..] + [rs[0]];
      assert NoDup(q) by {
        forall i, j | 0 <= i < j < |q|
          ensures q[i] != q[j]
        {
        }
      }
      assert forall r :: r in q <==> r in rs;
      assert forall n :: n != name ==> u.Providers(n) == t.Providers(n);
      assert u.Live();
    }
  }

  lemma {:induction false} PutServicesValid(t: Table, id: string, ss: seq<Service>)
    requires t.Valid() && t.Has(id)
    ensures PutServices(t, id, ss).Valid()
    ensures PutServices(t, id, ss).regions == t.regions
  {
    hide Table.Valid, PutService;
    if ss != [] {
      PutServicesValid(t, id, ss[..|ss| - 1]);
      PutServiceValid(PutServices(t, id, ss[..|ss| - 1]), id, ss[|ss| - 1]);
    }
  }

  lemma {:induction false} PutPayloadsValid(t: Table, id: string, ps: seq<Payload>)
    requires t.Valid() && t.Has(id)
    ensures PutPayloads(t, id, ps).Valid()
    ensures PutPayloads(t, id, ps).regions == t.regions
  {
    hide Table.Valid, PutPayload;
    if ps != [] {
      PutPayloadsValid(t, id, ps[..|ps| - 1]);
      PutPayloadValid(PutPayloads(t, id, ps[..|ps| - 1]), id, ps[|ps| - 1]);
    }
  }

  lemma {:induction false} AddRegionValid(t: Table, r: Region)
    requires t.Valid() && !t.Has(r.id)
    ensures t.(regions := t.regions + [r]).Valid()
    ensures forall x :: t.(regions := t.regions + [r]).Has(x) <==> t.Has(x) || x == r.id
  {
    hide DistinctKeys, HasKey, NoDup;
    var u := t.(regions := t.regions + [r]);
    forall x
      ensures u.Has(x) <==> t.Has(x) || x == r.id
    {
      HasAppend(t.regions, r, RegionKey, x);
    }
    WithoutNone(t.regions, RegionKey, r.id);
    PutDistinct(t.regions, RegionKey, r);
    assert forall n :: u.Providers(n) == t.Providers(n);
  }

  lemma {:induction false} MergeValid(t: Table, r: Region, ss: seq<Service>, ps: seq<Payload>)
    requires t.Valid()
    ensures Merge(t, r, ss, ps).Valid()
    ensures forall x :: Merge(t, r, ss, ps).Has(x) <==> t.Has(x) || x == r.id
  {
    hide Table.Valid, PutPayloads, PutServices, HasKey;
    if !t.Has(r.id) {
      var u := t.(regions := t.regions + [r]);
      AddRegionValid(t, r);
      PutServicesValid(u, r.id, ss);
      PutPayloadsValid(PutServices(u, r.id, ss), r.id, ps);
    }
  }

  lemma {:induction false} ExpireRegionsValid(t: Table, limits: nat, now: nat)
    requires t.Valid()
    ensures ExpireRegions(t, limits, now).Valid()
    decreases limits
  {
    hide Table.Valid, DropRegion;
    if !(limits == 0 || t.regions == [] || t.regions[0].timeval + REGION_TIMEOUT_MS > now) {
      DropRegionValid(t, t.regions[0].id);
      ExpireRegionsValid(DropRegion(t, t.regions[0].id), limits - 1, now);
    }
  }

  lemma {:induction false} ExpireServicesValid(t: Table, limits: nat, now: nat)
    requires t.Valid()
    ensures ExpireServices(t, limits, now).Valid()
    decreases limits
  {
    hide Table.Valid, RemoveService;
    if !(limits == 0 || t.services == [] || t.services[0].service.timeval + SERVICE_TIMEOUT_MS > now) {
      RemoveServiceValid(t, t.services[0].region, t.services[0].service.name);
      ExpireServicesValid(RemoveService(t, t.services[0].region, t.services[0].service.name), limits - 1, now);
    }
  }

  lemma {:induction false} ExpirePayloadsValid(t: Table, limits: nat, now: nat)
    requires t.Valid()
    ensures ExpirePayloads(t, limits, now).Valid()
    decreases limits
  {
    hide Table.Valid, RemovePayload;
    if !(limits == 0 || t.payloads == [] || t.payloads[0].payload.timeval + PAYLOAD_TIMEOUT_MS > now) {
      RemovePayloadValid(t, t.payloads[0].region, t.payloads[0].payload.id);
      ExpirePayloadsValid(RemovePayload(t, t.payloads[0].region, t.payloads[0].payload.id), limits - 1, now);
    }
  }

  lemma {:induction false} CheckTimerValid(t: Table, now: nat)
    requires t.Valid()
    ensures CheckTimer(t, now).Valid()
  {
    hide Table.Valid, ExpireRegions, ExpireServices, ExpirePayloads;
    ExpireRegionsValid(t, 3, now);
    ExpireServicesValid(ExpireRegions(t, 3, now), 100, now);
    ExpirePayloadsValid(ExpireServices(ExpireRegions(t, 3, now), 100, now), 100, now);
  }

  lemma {:induction false} DoValid(t: Table, op: Op)
    requires t.Valid()
    ensures Do(t, op).Valid()
  {
    hide Table.Valid, Merge, CheckTimer, RobinRoute, OnRegion, SetVersion, PutService, RemoveService, PutPayload,
      RemovePayload, DropRegion, HasKey;
    match op
    case OpRegion(r) => OnRegionValid(t, r);
    case OpRmRegion(id) => DropRegionValid(t, id);
    case OpService(id, v, s) =>
      if t.Has(id) {
        PutServiceValid(t, id, s);
        SetVersionValid(PutService(t, id, s), id, v);
      }
    case OpRmService(id, v, n) =>
      RemoveServiceValid(t, id, n);
      SetVersionValid(RemoveService(t, id, n), id, v);
    case OpPayload(id, v, p) =>
      if t.Has(id) {
        PutPayloadValid(t, id, p);
        SetVersionValid(PutPayload(t, id, p), id, v);
      }
    case OpRmPayload(id, v, p) =>
      RemovePayloadValid(t, id, p);
      SetVersionValid(RemovePayload(t, id, p), id, v);
    case OpMerge(r, ss, ps) => MergeValid(t, r, ss, ps);
    case OpRobin(n) => RobinRouteValid(t, n);
    case OpTimer(now) => CheckTimerValid(t, now);
  }

  /** Whatever happens to an empty table, the invariant holds. */
  lemma {:induction false} AlwaysValid(ops: seq<Op>)
    ensures DoAll(EMPTY_TABLE, ops).Valid()
  {
    hide Table.Valid, Do;
    if ops == [] {
      EmptyValid();
    } else {
      AlwaysValid(ops[..|ops| - 1]);
      DoValid(DoAll(EMPTY_TABLE, ops[..|ops| - 1]), ops[|ops| - 1]);
    }
  }

  lemma {:induction false} EmptyValid()
    ensures EMPTY_TABLE.Valid()
  {
  }
}
