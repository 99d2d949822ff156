/** What the tracker table means: which regions there are, where each service of a region is, and
    which region has a payload.  The lists, their order and the round robin are left out. */
module TrackerModel {
  import opened Types
  import opened Lists
  import opened Keyed
  import opened TrackerSpec
  import opened TrackerInvariant

  datatype Model = Model(regions: map<string, Region>, endpoints: map<ServiceId, EndPoint>, owner: map<string, string>)

  function Itself(r: Region): Region { r }

  function ProvidedEndPoint(p: Provided): EndPoint { p.service.endpoint }

  function Abs(t: Table): Model {
    Model(ByKey(t.regions, RegionKey, Itself), ByKey(t.services, ProvidedKey, ProvidedEndPoint),
          ByKey(t.payloads, CarriedKey, CarriedRegion))
  }

  function WithoutRegion(m: Model, id: string): Model {
    Model(m.regions - {id},
          map k | k in m.endpoints && k.region != id :: m.endpoints[k],
          map p | p in m.owner && m.owner[p] != id :: m.owner[p])
  }

  function AtVersion(m: Model, id: string, v: uint32): Model {
    if id in m.regions then m.(regions := m.regions[id := m.regions[id].(version := v)]) else m
  }

  function WithService(m: Model, id: string, s: Service): Model {
    m.(endpoints := m.endpoints[ServiceId(id, s.name) := s.endpoint])
  }

  function WithServices(m: Model, id: string, ss: seq<Service>): Model {
    if ss == [] then m else WithService(WithServices(m, id, ss[..|ss| - 1]), id, ss[|ss| - 1])
  }

  /** The last region to announce a payload wins. */
  function WithPayload(m: Model, id: string, p: Payload): Model {
    m.(owner := m.owner[p.id := id])
  }

  function WithPayloads(m: Model, id: string, ps: seq<Payload>): Model {
    if ps == [] then m else WithPayload(WithPayloads(m, id, ps[..|ps| - 1]), id, ps[|ps| - 1])
  }

  /** Only the owner removes a payload. */
  function WithoutPayload(m: Model, id: string, pid: string): Model {
    if pid in m.owner && m.owner[pid] == id then m.(owner := m.owner - {pid}) else m
  }

  function Merged(m: Model, r: Region, ss: seq<Service>, ps: seq<Payload>): Model {
    if r.id in m.regions then m
    else WithPayloads(WithServices(m.(regions := m.regions[r.id := r]), r.id, ss), r.id, ps)
  }

  /** The meaning of an operation.  A publication of an unknown region changes nothing. */
  function Meaning(m: Model, op: Op): Model {
    match op
    case OpRegion(r) => if r.id in m.regions then m.(regions := m.regions[r.id := r]) else m
    case OpRmRegion(id) => if id in m.regions then WithoutRegion(m, id) else m
    case OpService(id, v, s) => if id in m.regions then AtVersion(WithService(m, id, s), id, v) else m
    case OpRmService(id, v, n) =>
      if id in m.regions then AtVersion(m.(endpoints := m.endpoints - {ServiceId(id, n)}), id, v) else m
    case OpPayload(id, v, p) => if id in m.regions then AtVersion(WithPayload(m, id, p), id, v) else m
    case OpRmPayload(id, v, p) => if id in m.regions then AtVersion(WithoutPayload(m, id, p), id, v) else m
    case OpMerge(r, ss, ps) => Merged(m, r, ss, ps)
    case OpRobin(_) => m
    case OpTimer(_) => m
  }

  lemma {:induction false} AbsRegions(t: Table)
    requires t.Valid()
    ensures forall id :: t.Has(id) <==> id in Abs(t).regions
    ensures |Abs(t).regions| == |t.regions| && |Abs(t).endpoints| == |t.services| && |Abs(t).owner| == |t.payloads|
  {
    hide ByKey, HasKey, DistinctKeys;
    ByKeyRows(t.regions, RegionKey, Itself);
    ByKeyRows(t.services, ProvidedKey, ProvidedEndPoint);
    ByKeyRows(t.payloads, CarriedKey, CarriedRegion);
  }

  function KeyRegion(k: ServiceId, e: EndPoint): string { k.region }

  function KeyItself(k: ServiceId, e: EndPoint): ServiceId { k }

  function OwnerRegion(p: string, r: string): string { r }

  function OwnerAndPayload(p: string, r: string): PayloadId { PayloadId(r, p) }

  lemma {:induction false} AbsDropRegion(t: Table, id: string)
    requires t.Valid()
    ensures Abs(DropRegion(t, id)) == WithoutRegion(Abs(t), id)
  {
    hide ByKey, HasKey, DistinctKeys, Without;
    ByKeyWithout(t.regions, RegionKey, Itself, RegionKey, id, First);
    ByKeyWithout(t.services, ProvidedKey, ProvidedEndPoint, ProvidedRegion, id, KeyRegion);
    ByKeyWithout(t.payloads, CarriedKey, CarriedRegion, CarriedRegion, id, OwnerRegion);
    var m, a, b := Abs(t), WithoutRegion(Abs(t), id), Abs(DropRegion(t, id));
    assert forall k :: k in b.regions <==> k in m.regions && First(k, m.regions[k]) != id;
    MapExt(b.regions, a.regions);
    assert forall k :: k in b.endpoints <==> k in m.endpoints && KeyRegion(k, m.endpoints[k]) != id;
    MapExt(b.endpoints, a.endpoints);
    assert forall k :: k in b.owner <==> k in m.owner && OwnerRegion(k, m.owner[k]) != id;
    MapExt(b.owner, a.owner);
  }

  lemma {:induction false} AbsSetVersion(t: Table, id: string, v: uint32)
    requires t.Valid()
    ensures Abs(SetVersion(t, id, v)) == AtVersion(Abs(t), id, v)
  {
    hide ByKey, DistinctKeys, Without;
    AbsRegions(t);
    var u := VersionedRegions(t.regions, id, v);
    if t.Has(id) {
      var i :| 0 <= i < |t.regions| && RegionKey(t.regions[i]) == id;
      assert u == t.regions[i := t.regions[i].(version := v)] by {
        OnlyRow(t.regions, i);
      }
      ByKeyUpdate(t.regions, i, t.regions[i].(version := v), RegionKey, Itself);
      ByKeyRows(t.regions, RegionKey, Itself);
    } else {
      assert forall i :: 0 <= i < |t.regions| ==> RegionKey(t.regions[i]) != id;
      assert u == t.regions;
    }
  }

  lemma {:induction false} OnlyRow(rs: seq<Region>, i: nat)
    requires DistinctKeys(rs, RegionKey) && i < |rs|
    ensures forall j :: 0 <= j < |rs| && j != i ==> rs[j].id != rs[i].id
  {
    forall j | 0 <= j < |rs| && j != i
      ensures rs[j].id != rs[i].id
    {
      assert RegionKey(rs[if i < j then i else j]) != RegionKey(rs[if i < j then j else i]);
    }
  }

  lemma {:induction false} AbsPutService(t: Table, id: string, s: Service)
    requires t.Valid()
    ensures Abs(PutService(t, id, s)) == WithService(Abs(t), id, s)
  {
    hide ByKey, DistinctKeys, Without;
    ByKeyPut(t.services, Provided(id, s), ProvidedKey, ProvidedEndPoint);
  }

  lemma {:induction false} AbsRemoveService(t: Table, id: string, name: string)
    requires t.Valid()
    ensures Abs(RemoveService(t, id, name)) == Abs(t).(endpoints := Abs(t).endpoints - {ServiceId(id, name)})
  {
    hide ByKey, DistinctKeys, Without;
    ByKeyWithout(t.services, ProvidedKey, ProvidedEndPoint, ProvidedKey, ServiceId(id, name), KeyItself);
    var m, b := Abs(t).endpoints, Abs(RemoveService(t, id, name)).endpoints;
    assert forall k :: k in b <==> k in m && KeyItself(k, m[k]) != ServiceId(id, name);
    MapExt(b, m - {ServiceId(id, name)});
  }

  lemma {:induction false} AbsPutPayload(t: Table, id: string, p: Payload)
    requires t.Valid()
    ensures Abs(PutPayload(t, id, p)) == WithPayload(Abs(t), id, p)
  {
    hide ByKey, DistinctKeys, Without;
    ByKeyPut(t.payloads, Carried(id, p), CarriedKey, CarriedRegion);
  }

  lemma {:induction false} AbsRemovePayload(t: Table, id: string, pid: string)
    requires t.Valid()
    ensures Abs(RemovePayload(t, id, pid)) == WithoutPayload(Abs(t), id, pid)
  {
    hide ByKey, DistinctKeys, Without;
    ByKeyWithout(t.payloads, CarriedKey, CarriedRegion, CarriedBoth, PayloadId(id, pid), OwnerAndPayload);
    var m, b := Abs(t).owner, Abs(RemovePayload(t, id, pid)).owner;
    assert forall k :: k in b <==> k in m && OwnerAndPayload(k, m[k]) != PayloadId(id, pid);
    MapExt(b, WithoutPayload(Abs(t), id, pid).owner);
  }

  lemma {:induction false} AbsOnRegion(t: Table, r: Region)
    requires t.Valid()
    ensures Abs(OnRegion(t, r)) == Meaning(Abs(t), OpRegion(r))
  {
    hide ByKey, DistinctKeys, Without;
    AbsRegions(t);
    ByKeyPut(t.regions, r, RegionKey, Itself);
  }

  lemma {:induction false} AbsPutServices(t: Table, id: string, ss: seq<Service>)
    requires t.Valid() && t.Has(id)
    ensures Abs(PutServices(t, id, ss)) == WithServices(Abs(t), id, ss)
  {
    hide Table.Valid, Abs, PutService, WithService;
    if ss != [] {
      AbsPutServices(t, id, ss[..|ss| - 1]);
      PutServicesValid(t, id, ss[..|ss| - 1]);
      AbsPutService(PutServices(t, id, ss[..|ss| - 1]), id, ss[|ss| - 1]);
    }
  }

  lemma {:induction false} AbsPutPayloads(t: Table, id: string, ps: seq<Payload>)
    requires t.Valid() && t.Has(id)
    ensures Abs(PutPayloads(t, id, ps)) == WithPayloads(Abs(t), id, ps)
  {
    hide Table.Valid, Abs, PutPayload, WithPayload;
    if ps != [] {
      AbsPutPayloads(t, id, ps[..|ps| - 1]);
      PutPayloadsValid(t, id, ps[..|ps| - 1]);
      AbsPutPayload(PutPayloads(t, id, ps[..|ps| - 1]), id, ps[|ps| - 1]);
    }
  }

  lemma {:induction false} AbsMerge(t: Table, r: Region, ss: seq<Service>, ps: seq<Payload>)
    requires t.Valid()
    ensures Abs(Merge(t, r, ss, ps)) == Merged(Abs(t), r, ss, ps)
  {
    hide Table.Valid, PutServices, PutPayloads, WithServices, WithPayloads;
    AbsRegions(t);
    if !t.Has(r.id) {
      var u := t.(regions := t.regions + [r]);
      AddRegionValid(t, r);
      ByKeyAppend(t.regions, r, RegionKey, Itself);
      AbsPutServices(u, r.id, ss);
      PutServicesValid(u, r.id, ss);
      AbsPutPayloads(PutServices(u, r.id, ss), r.id, ps);
    }
  }

  /** The table refines the model under every operation but expiry, which `Expiry` describes. */
  lemma {:induction false} TableRefinesModel(t: Table, op: Op)
    requires t.Valid() && !op.OpTimer?
    ensures Abs(Do(t, op)) == Meaning(Abs(t), op)
  {
    hide Table.Valid, Table.Has, Abs, PutService, RemoveService, PutPayload, RemovePayload, DropRegion, SetVersion,
      Merge, Merged,
      AtVersion, WithService, WithPayload, WithoutRegion, WithoutPayload, OnRegion;
    AbsRegions(t);
    match op
    case OpRegion(r) => AbsOnRegion(t, r);
    case OpRmRegion(id) => AbsDropRegion(t, id);
    case OpService(id, v, s) =>
      AbsPutService(t, id, s);
      if t.Has(id) {
        PutServiceValid(t, id, s);
        AbsSetVersion(PutService(t, id, s), id, v);
      }
    case OpRmService(id, v, n) =>
      AbsRemoveService(t, id, n);
      RemoveServiceValid(t, id, n);
      AbsSetVersion(RemoveService(t, id, n), id, v);
    case OpPayload(id, v, p) =>
      AbsPutPayload(t, id, p);
      if t.Has(id) {
        PutPayloadValid(t, id, p);
        AbsSetVersion(PutPayload(t, id, p), id, v);
      }
    case OpRmPayload(id, v, p) =>
      AbsRemovePayload(t, id, p);
      RemovePayloadValid(t, id, p);
      AbsSetVersion(RemovePayload(t, id, p), id, v);
    case OpMerge(r, ss, ps) => AbsMerge(t, r, ss, ps);
    case OpRobin(n) => RobinKeepsLists(t, n);
  }

  lemma {:induction false} RobinKeepsLists(t: Table, name: string)
    ensures Abs(RobinRoute(t, name)) == Abs(t)
  {
  }

  // What the readers of the table read

  function GetRegion(m: Model, id: string): Option<Region> {
    if id in m.regions then Some(m.regions[id]) else None
  }

  /** The bus of the region that has the payload. */
  function RoutePayload(m: Model, p: string): Option<EndPoint> {
    if p in m.owner && m.owner[p] in m.regions then Some(m.regions[m.owner[p]].bus) else None
  }
}
