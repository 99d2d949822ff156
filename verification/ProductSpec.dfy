/** The region that a tracker rebuilds, on values: filled by a snapshot, then kept up by updates. */
module ProductSpec {
  import opened Types
  import opened Lists
  import opened Keyed
  import opened Publication

  datatype ProductState = ProductState(region: Region, services: seq<Service>, payloads: seq<Payload>) {
    function Content(): Content {
      ContentOf(services, payloads)
    }

    ghost predicate Distinct() {
      DistinctKeys(services, ServiceKey) && DistinctKeys(payloads, PayloadKey)
    }
  }

  const NO_REGION := Region("", 0, "", EndPoint("", ""), EndPoint("", ""), 0)
  const EMPTY_PRODUCT := ProductState(NO_REGION, [], [])

  /** A call on the snapshot builder. */
  datatype BuilderCall =
    | CallRegion(region: Region)
    | CallService(id: string, service: Service)
    | CallPayload(id: string, payload: Payload)

  /** Whether the product takes the call (result 0) or refuses it (result -1). */
  predicate Accepts(p: ProductState, c: BuilderCall) {
    match c
    case CallRegion(r) => p.region.id == "" || p.region.id == r.id
    case CallService(id, s) => p.region.id == id && !HasKey(p.services, ServiceKey, s.name)
    case CallPayload(id, pl) => p.region.id == id && !HasKey(p.payloads, PayloadKey, pl.id)
  }

  function Build(p: ProductState, c: BuilderCall): ProductState {
    if !Accepts(p, c) then p
    else
      match c
      case CallRegion(r) => p.(region := r)
      case CallService(_, s) => p.(services := p.services + [s])
      case CallPayload(_, pl) => p.(payloads := p.payloads + [pl])
  }

  function BuildAll(p: ProductState, cs: seq<BuilderCall>): ProductState {
    if cs == [] then p else Build(BuildAll(p, cs[..|cs| - 1]), cs[|cs| - 1])
  }

  function WithVersion(p: ProductState, v: uint32): ProductState {
    p.(region := p.region.(version := v))
  }

  function OnRegion(p: ProductState, r: Region): ProductState {
    if r.id == p.region.id then p.(region := r) else p
  }

  function OnService(p: ProductState, id: string, v: uint32, s: Service): ProductState {
    if p.region.id != id then p
    else WithVersion(p, v).(services := Without(p.services, ServiceKey, s.name) + [s])
  }

  function OnRmService(p: ProductState, id: string, v: uint32, name: string): ProductState {
    if p.region.id != id then p
    else WithVersion(p, v).(services := Without(p.services, ServiceKey, name))
  }

  function OnPayload(p: ProductState, id: string, v: uint32, pl: Payload): ProductState {
    if p.region.id != id then p
    else WithVersion(p, v).(payloads := Without(p.payloads, PayloadKey, pl.id) + [pl])
  }

  function OnRmPayload(p: ProductState, id: string, v: uint32, pid: string): ProductState {
    if p.region.id != id then p
    else WithVersion(p, v).(payloads := Without(p.payloads, PayloadKey, pid))
  }

  /** An observer call; `id` is the region of the cached update. */
  function Observe(p: ProductState, id: string, u: Update): ProductState {
    match u
    case UpdateRegion(r) => OnRegion(p, r)
    case UpdateService(v, s) => OnService(p, id, v, s)
    case RmService(v, n) => OnRmService(p, id, v, n)
    case UpdatePayload(v, pl) => OnPayload(p, id, v, pl)
    case RmPayload(v, pid) => OnRmPayload(p, id, v, pid)
  }

  function ObserveAll(p: ProductState, id: string, us: seq<Update>): ProductState {
    if us == [] then p else Observe(ObserveAll(p, id, us[..|us| - 1]), id, us[|us| - 1])
  }

  /** Observing an update changes the content as the publication did at the region, and takes over
      its version. */
  lemma {:induction false} ObserveContent(p: ProductState, id: string, u: Update)
    requires p.region.id == id && (u.UpdateRegion? ==> u.region.id == id)
    ensures var q := Observe(p, id, u);
            && q.Content() == Apply(p.Content(), u.Wire())
            && q.region.version == u.Version()
            && q.region.Wire() ==
               (if u.UpdateRegion? then u.region.Wire() else p.region.Wire().(version := u.Version()))
  {
    match u
    case UpdateRegion(r) =>
    case UpdateService(v, s) => ContentPut(p.services, p.payloads, s, Payload("", 0));
    case RmService(v, n) => ServiceMapWithout(p.services, n);
    case UpdatePayload(v, pl) => ContentPut(p.services, p.payloads, Service("", EndPoint("", ""), 0), pl);
    case RmPayload(v, pid) => PayloadSetWithout(p.payloads, pid);
  }

  lemma {:induction false} ObserveDistinct(p: ProductState, id: string, u: Update)
    requires p.Distinct()
    ensures Observe(p, id, u).Distinct()
  {
    match u
    case UpdateRegion(r) =>
    case UpdateService(v, s) => PutDistinct(p.services, ServiceKey, s);
    case RmService(v, n) => WithoutDistinct(p.services, ServiceKey, n);
    case UpdatePayload(v, pl) => PutDistinct(p.payloads, PayloadKey, pl);
    case RmPayload(v, pid) => WithoutDistinct(p.payloads, PayloadKey, pid);
  }

  lemma {:induction false} ObserveAllDistinct(p: ProductState, id: string, us: seq<Update>)
    requires p.Distinct()
    ensures ObserveAll(p, id, us).Distinct()
  {
    if us != [] {
      ObserveAllDistinct(p, id, us[..|us| - 1]);
      ObserveDistinct(ObserveAll(p, id, us[..|us| - 1]), id, us[|us| - 1]);
    }
  }

  /** What an update of the product's region does to the rows: a record that is announced is the last
      one, with its own stamp, and the others keep value and order. */
  lemma {:induction false} ObserveEffect(p: ProductState, u: Update)
    requires p.Distinct()
    ensures var q := Observe(p, p.region.id, u);
            match u
            case UpdateRegion(r) => q == p.(region := if r.id == p.region.id then r else p.region)
            case UpdateService(v, s) =>
              && q == p.(services := q.services, region := p.region.(version := v))
              && PutLast(p.services, q.services, ServiceKey, s)
            case RmService(v, n) =>
              && q == p.(services := q.services, region := p.region.(version := v))
              && KeepsOrder(p.services, q.services, ServiceKey, n)
            case UpdatePayload(v, pl) =>
              && q == p.(payloads := q.payloads, region := p.region.(version := v))
              && PutLast(p.payloads, q.payloads, PayloadKey, pl)
            case RmPayload(v, i) =>
              && q == p.(payloads := q.payloads, region := p.region.(version := v))
              && KeepsOrder(p.payloads, q.payloads, PayloadKey, i)
  {
    hide PutLast, KeepsOrder, Without;
    match u
    case UpdateRegion(r) =>
    case UpdateService(v, s) => PutIsLast(p.services, ServiceKey, s);
    case RmService(v, n) => WithoutIsOrdered(p.services, ServiceKey, n);
    case UpdatePayload(v, pl) => PutIsLast(p.payloads, PayloadKey, pl);
    case RmPayload(v, i) => WithoutIsOrdered(p.payloads, PayloadKey, i);
  }

  /** Exactly: the product takes a region while it has none, or the same one again; a service or a
      payload of its own region under a new key, which goes to the back.  A refused call changes
      nothing. */
  lemma {:induction false} BuildEffect(p: ProductState, c: BuilderCall)
    ensures var q := Build(p, c);
            match c
            case CallRegion(r) =>
              && (Accepts(p, c) <==> p.region.id == "" || r.id == p.region.id)
              && q == p.(region := if Accepts(p, c) then r else p.region)
            case CallService(id, s) =>
              && (Accepts(p, c) <==> id == p.region.id && forall x :: x in p.services ==> x.name != s.name)
              && q == p.(services := p.services + if Accepts(p, c) then [s] else [])
            case CallPayload(id, pl) =>
              && (Accepts(p, c) <==> id == p.region.id && forall x :: x in p.payloads ==> x.id != pl.id)
              && q == p.(payloads := p.payloads + if Accepts(p, c) then [pl] else [])
  {
    assert p.services + [] == p.services && p.payloads + [] == p.payloads;
    assert forall i :: 0 <= i < |p.services| ==> ServiceKey(p.services[i]) == p.services[i].name;
    assert forall i :: 0 <= i < |p.payloads| ==> PayloadKey(p.payloads[i]) == p.payloads[i].id;
  }

  /** Whatever calls come, names and ids stay distinct. */
  lemma {:induction false} BuildAllDistinct(p: ProductState, cs: seq<BuilderCall>)
    requires p.Distinct()
    ensures BuildAll(p, cs).Distinct()
  {
    if cs != [] {
      BuildAllDistinct(p, cs[..|cs| - 1]);
    }
  }
}
