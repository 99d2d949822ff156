/** The tracker's routing table on values: three lists ordered by last update, and for each service
    name the regions that provide it in round-robin order. */
module TrackerSpec {
  import opened Types
  import opened Lists

  datatype Provided = Provided(region: string, service: Service)

  datatype Carried = Carried(region: string, payload: Payload)

  /** A service of a region, and a payload of a region. */
  datatype ServiceId = ServiceId(region: string, name: string)

  datatype PayloadId = PayloadId(region: string, id: string)

  function ProvidedKey(p: Provided): ServiceId { ServiceId(p.region, p.service.name) }

  function ProvidedRegion(p: Provided): string { p.region }

  function CarriedKey(c: Carried): string { c.payload.id }

  function CarriedRegion(c: Carried): string { c.region }

  function CarriedBoth(c: Carried): PayloadId { PayloadId(c.region, c.payload.id) }

  /** `robin` holds a name only while it has a provider. */
  type Robin = map<string, seq<string>>

  function ProvidersOf(robin: Robin, name: string): seq<string> {
    if name in robin then robin[name] else []
  }

  function WithProviders(robin: Robin, name: string, rs: seq<string>): Robin {
    if rs == [] then robin - {name} else robin[name := rs]
  }

  function Joined(rs: seq<string>, id: string): seq<string> {
    if id in rs then rs else rs + [id]
  }

  datatype Table = Table(regions: seq<Region>, services: seq<Provided>, payloads: seq<Carried>, robin: Robin) {

    predicate Has(id: string) {
      HasKey(regions, RegionKey, id)
    }

    function Providers(name: string): seq<string> {
      ProvidersOf(robin, name)
    }

    ghost predicate Live() {
      && (forall i :: 0 <= i < |services| ==> Has(services[i].region))
      && (forall i :: 0 <= i < |payloads| ==> Has(payloads[i].region))
    }

    ghost predicate RobinValid() {
      && (forall n :: n in robin ==> robin[n] != [])
      && (forall n :: NoDup(Providers(n)))
      && (forall n, r :: r in Providers(n) <==> HasKey(services, ProvidedKey, ServiceId(r, n)))
    }

    /** The representation invariant: ids, (region, name) pairs and payload ids are unique; services
        and payloads belong to live regions; the providers of a name are exactly the regions that
        have it, each once. */
    ghost predicate Valid() {
      && DistinctKeys(regions, RegionKey)
      && DistinctKeys(services, ProvidedKey)
      && DistinctKeys(payloads, CarriedKey)
      && Live()
      && RobinValid()
    }
  }

  const EMPTY_TABLE := Table([], [], [], map[])

  // The operations

  function DropFromAll(robin: Robin, id: string): Robin {
    map n | n in robin && Drop(robin[n], id) != [] :: Drop(robin[n], id)
  }

  /** A region goes with its services and payloads. */
  function DropRegion(t: Table, id: string): Table {
    Table(Without(t.regions, RegionKey, id), Without(t.services, ProvidedRegion, id),
          Without(t.payloads, CarriedRegion, id), DropFromAll(t.robin, id))
  }

  function SetVersion(t: Table, id: string, v: uint32): Table {
    t.(regions := VersionedRegions(t.regions, id, v))
  }

  /** The region record is updated where it is. */
  function VersionedRegions(rs: seq<Region>, id: string, v: uint32): (r: seq<Region>)
    ensures |r| == |rs|
  {
    seq(|rs|, i requires 0 <= i < |rs| => if rs[i].id == id then rs[i].(version := v) else rs[i])
  }

  /** The newest record of a provider goes to the back; a new provider queues behind the others. */
  function PutService(t: Table, id: string, svc: Service): Table {
    t.(services := Without(t.services, ProvidedKey, ServiceId(id, svc.name)) + [Provided(id, svc)],
    robin := WithProviders(t.robin, svc.name, Joined(t.Providers(svc.name), id)))
  }

  function RemoveService(t: Table, id: string, name: string): Table {
    t.(services := Without(t.services, ProvidedKey, ServiceId(id, name)),
    robin := WithProviders(t.robin, name, Drop(t.Providers(name), id)))
  }

  /** The last region to announce a payload has it. */
  function PutPayload(t: Table, id: string, pl: Payload): Table {
    t.(payloads := Without(t.payloads, CarriedKey, pl.id) + [Carried(id, pl)])
  }

  /** Only the region that has a payload can take it away. */
  function RemovePayload(t: Table, id: string, pid: string): Table {
    t.(payloads := Without(t.payloads, CarriedBoth, PayloadId(id, pid)))
  }

  function OnRegion(t: Table, r: Region): Table {
    if t.Has(r.id) then t.(regions := Without(t.regions, RegionKey, r.id) + [r]) else t
  }

  function OnRmRegion(t: Table, id: string): Table {
    if t.Has(id) then DropRegion(t, id) else t
  }

  function OnService(t: Table, id: string, v: uint32, svc: Service): Table {
    if t.Has(id) then SetVersion(PutService(t, id, svc), id, v) else t
  }

  function OnRmService(t: Table, id: string, v: uint32, name: string): Table {
    if t.Has(id) then SetVersion(RemoveService(t, id, name), id, v) else t
  }

  function OnPayload(t: Table, id: string, v: uint32, pl: Payload): Table {
    if t.Has(id) then SetVersion(PutPayload(t, id, pl), id, v) else t
  }

  function OnRmPayload(t: Table, id: string, v: uint32, pid: string): Table {
    if t.Has(id) then SetVersion(RemovePayload(t, id, pid), id, v) else t
  }

  function PutServices(t: Table, id: string, ss: seq<Service>): Table {
    if ss == [] then t else PutService(PutServices(t, id, ss[..|ss| - 1]), id, ss[|ss| - 1])
  }

  function PutPayloads(t: Table, id: string, ps: seq<Payload>): Table {
    if ps == [] then t else PutPayload(PutPayloads(t, id, ps[..|ps| - 1]), id, ps[|ps| - 1])
  }

  /** A region that is already there is not merged. */
  function Merge(t: Table, r: Region, ss: seq<Service>, ps: seq<Payload>): Table {
    if t.Has(r.id) then t
    else PutPayloads(PutServices(t.(regions := t.regions + [r]), r.id, ss), r.id, ps)
  }

  /** The region that is asked next, and the table after it was asked. */
  function RobinRoute(t: Table, name: string): Table {
    var rs := t.Providers(name);
    if rs == [] then t else t.(robin := t.robin[name := rs[1..] + [rs[0]]])
  }

  const REGION_TIMEOUT_MS := 30000
  const SERVICE_TIMEOUT_MS := 125000
  const PAYLOAD_TIMEOUT_MS := 125000

  function ExpireRegions(t: Table, limits: nat, now: nat): Table
    decreases limits
  {
    if limits == 0 || t.regions == [] || t.regions[0].timeval + REGION_TIMEOUT_MS > now then t
    else ExpireRegions(DropRegion(t, t.regions[0].id), limits - 1, now)
  }

  function ExpireServices(t: Table, limits: nat, now: nat): Table
    decreases limits
  {
    if limits == 0 || t.services == [] || t.services[0].service.timeval + SERVICE_TIMEOUT_MS > now then t
    else ExpireServices(RemoveService(t, t.services[0].region, t.services[0].service.name), limits - 1, now)
  }

  function ExpirePayloads(t: Table, limits: nat, now: nat): Table
    decreases limits
  {
    if limits == 0 || t.payloads == [] || t.payloads[0].payload.timeval + PAYLOAD_TIMEOUT_MS > now then t
    else ExpirePayloads(RemovePayload(t, t.payloads[0].region, t.payloads[0].payload.id), limits - 1, now)
  }

  function CheckTimer(t: Table, now: nat): Table {
    ExpirePayloads(ExpireServices(ExpireRegions(t, 3, now), 100, now), 100, now)
  }

  /** Everything that can happen to the table. */
  datatype Op =
    | OpRegion(region: Region)
    | OpRmRegion(id: string)
    | OpService(id: string, version: uint32, service: Service)
    | OpRmService(id: string, version: uint32, name: string)
    | OpPayload(id: string, version: uint32, payload: Payload)
    | OpRmPayload(id: string, version: uint32, pid: string)
    | OpMerge(region: Region, services: seq<Service>, payloads: seq<Payload>)
    | OpRobin(name: string)
    | OpTimer(now: nat)

  function Do(t: Table, op: Op): Table {
    match op
    case OpRegion(r) => OnRegion(t, r)
    case OpRmRegion(id) => OnRmRegion(t, id)
    case OpService(id, v, s) => OnService(t, id, v, s)
    case OpRmService(id, v, n) => OnRmService(t, id, v, n)
    case OpPayload(id, v, p) => OnPayload(t, id, v, p)
    case OpRmPayload(id, v, p) => OnRmPayload(t, id, v, p)
    case OpMerge(r, ss, ps) => Merge(t, r, ss, ps)
    case OpRobin(n) => RobinRoute(t, n)
    case OpTimer(now) => CheckTimer(t, now)
  }

  function DoAll(t: Table, ops: seq<Op>): Table {
    if ops == [] then t else Do(DoAll(t, ops[..|ops| - 1]), ops[|ops| - 1])
  }
}
