/** The region table on values: its lists in order, its version and what it has published. */
module RegionSpec {
  import opened Types
  import opened Lists
  import opened Publication
  import opened Sweep

  /** `observed`: an observer is set; `active`: the two timers run. */
  datatype RegionState = RegionState(
    region: Region,
    services: seq<Service>,
    payloads: seq<Payload>,
    observed: bool,
    active: bool,
    published: seq<Pub>)
  {
    /** The lists that `addService` and `addPayload` build. */
    ghost predicate Valid() {
      && DistinctKeys(services, ServiceKey)
      && DistinctKeys(payloads, PayloadKey)
      && GoodServices(services)
      && GoodPayloads(payloads)
    }

    function Content(): Content {
      ContentOf(services, payloads)
    }

    function Publish(ps: seq<Pub>): RegionState {
      if observed then this.(published := published + ps) else this
    }

    function Bump(): RegionState {
      this.(region := region.(version := Next(region.version)))
    }
  }

  ghost predicate GoodServices(s: seq<Service>) {
    forall i :: 0 <= i < |s| ==> s[i].Good()
  }

  ghost predicate GoodPayloads(s: seq<Payload>) {
    forall i :: 0 <= i < |s| ==> s[i].Good()
  }

  lemma {:induction false} GoodWithout(ss: seq<Service>, ps: seq<Payload>, k: string)
    ensures GoodServices(ss) ==> GoodServices(Without(ss, ServiceKey, k))
    ensures GoodPayloads(ps) ==> GoodPayloads(Without(ps, PayloadKey, k))
  {
    WithoutMembers(ss, ServiceKey, k);
    WithoutMembers(ps, PayloadKey, k);
    var w := Without(ss, ServiceKey, k);
    forall i | GoodServices(ss) && 0 <= i < |w|
      ensures w[i].Good()
    {
      assert w[i] in w;
    }
    var u := Without(ps, PayloadKey, k);
    forall i | GoodPayloads(ps) && 0 <= i < |u|
      ensures u[i].Good()
    {
      assert u[i] in u;
    }
  }

  const REPEAT_TIMER_MS := 20
  const SERVICE_MAXCOUNT := 100

  function ServiceAge(s: Service): nat { s.timeval }

  function PayloadAge(p: Payload): nat { p.timeval }

  function StampService(s: Service, now: nat): Service { s.(timeval := now) }

  function StampPayload(p: Payload, now: nat): Payload { p.(timeval := now) }

  function ServicePubs(v: uint32, s: seq<Service>): seq<Pub> {
    seq(|s|, i requires 0 <= i < |s| => PubService(v, s[i].Wire()))
  }

  function PayloadPubs(v: uint32, s: seq<Payload>): seq<Pub> {
    seq(|s|, i requires 0 <= i < |s| => PubPayload(v, s[i].id))
  }

  /** The number of 20 ms ticks in the republish period, and the budget of one tick. */
  function Ticks(sec: nat): (t: nat)
    ensures sec > 0 ==> t >= 50
  {
    assert sec * 1000 == sec * 50 * REPEAT_TIMER_MS;
    sec * 1000 / REPEAT_TIMER_MS
  }

  function PayloadBudget(size: nat, sec: nat): nat
    requires sec > 0
  {
    var t := Ticks(sec);
    assert t >= 50;
    size / t + 100
  }

  /** What can happen to a region.  A sweep reads the clock once per list. */
  datatype Event =
    | AddService(service: Service)
    | RmService(name: string)
    | AddPayload(payload: Payload)
    | RmPayload(id: string)
    | PubRegionTimer
    | PubRepeatedTimer(secService: nat, secPayload: nat, now: nat, now': nat)
    | Start(observer: bool)
    | Stop

  function SweptServices(s: RegionState, secService: nat, now: nat): Swept<Service> {
    SweepList(s.services, ServiceAge, StampService, Sub64(now, secService * 1000), now, SERVICE_MAXCOUNT)
  }

  function SweptPayloads(s: RegionState, secPayload: nat, now: nat): Swept<Payload>
    requires secPayload > 0
  {
    SweepList(s.payloads, PayloadAge, StampPayload, Sub64(now, secPayload * 1000), now,
              PayloadBudget(|s.payloads|, secPayload))
  }

  /** A timer of zero seconds would divide by zero; timers only fire while they are active. */
  predicate Enabled(s: RegionState, e: Event) {
    match e
    case PubRegionTimer => s.active
    case PubRepeatedTimer(_, sec, _, _) => s.active && sec > 0
    case _ => true
  }

  /** The table does not lose its observer: a start without one is refused, or is not made. */
  predicate KeepsObserver(s: RegionState, e: Event) {
    e == Start(false) ==> s.active
  }

  function AddedService(s: RegionState, svc: Service): RegionState {
    if !svc.Good() || HasKey(s.services, ServiceKey, svc.name) then s
    else
      s.Bump().(services := s.services + [svc])
      .Publish([PubService(Next(s.region.version), svc.Wire())])
  }

  function RemovedService(s: RegionState, name: string): RegionState {
    if !HasKey(s.services, ServiceKey, name) then s
    else
      s.Bump().(services := Without(s.services, ServiceKey, name))
      .Publish([PubRmService(Next(s.region.version), name)])
  }

  function AddedPayload(s: RegionState, pl: Payload): RegionState {
    if !pl.Good() || HasKey(s.payloads, PayloadKey, pl.id) then s
    else
      s.Bump().(payloads := s.payloads + [pl])
      .Publish([PubPayload(Next(s.region.version), pl.id)])
  }

  function RemovedPayload(s: RegionState, id: string): RegionState {
    if !HasKey(s.payloads, PayloadKey, id) then s
    else
      s.Bump().(payloads := Without(s.payloads, PayloadKey, id))
      .Publish([PubRmPayload(Next(s.region.version), id)])
  }

  function Repeated(s: RegionState, secService: nat, secPayload: nat, now: nat, now': nat): RegionState
    requires secPayload > 0
  {
    if !s.observed then s
    else
      var svcs := SweptServices(s, secService, now);
      var pls := SweptPayloads(s, secPayload, now');
      s.(services := svcs.list, payloads := pls.list)
      .Publish(ServicePubs(s.region.version, svcs.out) + PayloadPubs(s.region.version, pls.out))
  }

  /** `observer` says whether there is one: without one the timers run and publish nothing. */
  function Started(s: RegionState, observer: bool): RegionState {
    if s.active then s else s.(observed := observer, active := true).Publish([PubRegion(s.region.Wire())])
  }

  function Stopped(s: RegionState): RegionState {
    if s.active then s.(active := false).Publish([PubRmRegion]) else s
  }

  function Step(s: RegionState, e: Event): RegionState
    requires Enabled(s, e)
  {
    match e
    case AddService(svc) => AddedService(s, svc)
    case RmService(name) => RemovedService(s, name)
    case AddPayload(pl) => AddedPayload(s, pl)
    case RmPayload(id) => RemovedPayload(s, id)
    case PubRegionTimer => s.Publish([PubRegion(s.region.Wire())])
    case PubRepeatedTimer(secService, secPayload, now, now') => Repeated(s, secService, secPayload, now, now')
    case Start(observer) => Started(s, observer)
    case Stop => Stopped(s)
  }

  /** A step that changed the content raised the version by one and published exactly that change;
      any other step left content and version alone. */
  predicate Mutates(s: RegionState, e: Event) {
    match e
    case AddService(svc) => svc.Good() && !HasKey(s.services, ServiceKey, svc.name)
    case RmService(name) => HasKey(s.services, ServiceKey, name)
    case AddPayload(pl) => pl.Good() && !HasKey(s.payloads, PayloadKey, pl.id)
    case RmPayload(id) => HasKey(s.payloads, PayloadKey, id)
    case _ => false
  }

  lemma {:induction false} SweepServiceContent(list: seq<Service>, expired: int, now: nat, maxcount: nat)
    requires DistinctKeys(list, ServiceKey) && GoodServices(list)
    requires now > 0
    ensures var r := SweepList(list, ServiceAge, StampService, expired, now, maxcount);
            && DistinctKeys(r.list, ServiceKey)
            && GoodServices(r.list)
            && ServiceMap(r.list) == ServiceMap(list)
            && (forall s :: s in r.out ==> s.name in ServiceMap(list) && ServiceMap(list)[s.name] == s.endpoint)
    decreases maxcount
  {
    hide ServiceMap, DistinctKeys;
    if !(maxcount == 0 || list == [] || list[0].timeval > expired) {
      var x := StampService(list[0], now);
      RotateServiceContent(list, x);
      if |list| > 1 {
        SweepServiceContent(list[1..] + [x], expired, now, maxcount - 1);
      } else {
        assert list[1..] + [x] == [x];
      }
    }
  }

  lemma {:induction false} RotateServiceContent(list: seq<Service>, x: Service)
    requires list != [] && DistinctKeys(list, ServiceKey)
    requires x.name == list[0].name && x.endpoint == list[0].endpoint
    ensures DistinctKeys(list[1..] + [x], ServiceKey)
    ensures ServiceMap(list[1..] + [x]) == ServiceMap(list)
    ensures x.name in ServiceMap(list) && ServiceMap(list)[x.name] == x.endpoint
  {
    hide ServiceMap, Without, DistinctKeys;
    ServiceMapAt(list, 0);
    WithoutAt(list, ServiceKey, 0);
    assert list[1..] == RemoveAt(list, 0);
    ContentPut(list, [], x, Payload("", 0));
    PutDistinct(list, ServiceKey, x);
  }

  lemma {:induction false} SweepPayloadContent(list: seq<Payload>, expired: int, now: nat, maxcount: nat)
    requires DistinctKeys(list, PayloadKey) && GoodPayloads(list)
    ensures var r := SweepList(list, PayloadAge, StampPayload, expired, now, maxcount);
            && DistinctKeys(r.list, PayloadKey)
            && GoodPayloads(r.list)
            && PayloadSet(r.list) == PayloadSet(list)
            && |r.list| == |list|
            && (forall p :: p in r.out ==> p.id in PayloadSet(list))
    decreases maxcount
  {
    hide PayloadSet, DistinctKeys;
    if !(maxcount == 0 || list == [] || list[0].timeval > expired) {
      var x := StampPayload(list[0], now);
      RotatePayloadContent(list, x);
      if |list| > 1 {
        SweepPayloadContent(list[1..] + [x], expired, now, maxcount - 1);
      } else {
        assert list[1..] + [x] == [x];
      }
    }
  }

  lemma {:induction false} RotatePayloadContent(list: seq<Payload>, x: Payload)
    requires list != [] && DistinctKeys(list, PayloadKey) && x.id == list[0].id
    ensures DistinctKeys(list[1..] + [x], PayloadKey)
    ensures PayloadSet(list[1..] + [x]) == PayloadSet(list)
    ensures x.id in PayloadSet(list)
  {
    hide Without, DistinctKeys;
    assert list[0] in list;
    WithoutAt(list, PayloadKey, 0);
    assert list[1..] == RemoveAt(list, 0);
    ContentPut([], list, Service("", EndPoint("", ""), 0), x);
    PutDistinct(list, PayloadKey, x);
  }

  /** The publications a step adds. */
  function Emitted(s: RegionState, e: Event): (ps: seq<Pub>)
    requires Enabled(s, e)
    ensures Step(s, e).published == s.published + ps
  {
    var after := Step(s, e).published;
    assert s.published <= after;
    after[|s.published|..]
  }
}
