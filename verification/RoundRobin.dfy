/** The round robin over the providers of a service. */
module RoundRobin {
  import opened Types
  import opened Lists
  import opened Keyed
  import opened TrackerSpec
  import opened TrackerInvariant

  predicate SameSet(p: seq<string>, q: seq<string>) {
    (forall r :: r in p ==> r in q) && (forall r :: r in q ==> r in p)
  }

  /** `q` is `p`, or has lost somebody and won nobody. */
  ghost predicate Shrunk(p: seq<string>, q: seq<string>) {
    (forall r :: r in q ==> r in p) && (q != p ==> exists r :: r in p && r !in q)
  }

  lemma {:induction false} ShrunkTwice(p: seq<string>, q: seq<string>, s: seq<string>)
    requires Shrunk(p, q) && Shrunk(q, s)
    ensures Shrunk(p, s)
  {
  }

  lemma {:induction false} DropShrinks(p: seq<string>, id: string)
    requires NoDup(p)
    ensures Shrunk(p, Drop(p, id))
  {
    DropNoDup(p, id);
  }

  lemma {:induction false} RemoveServiceShrinks(t: Table, id: string, name: string, n: string)
    requires t.Valid()
    ensures Shrunk(t.Providers(n), RemoveService(t, id, name).Providers(n))
  {
    hide DistinctKeys, HasKey, NoDup, Without, Drop, ProvidersOf, WithProviders, Shrunk;
    WithProvidersOf(t.robin, name, Drop(t.Providers(name), id));
    DropShrinks(t.Providers(name), id);
    assert Shrunk(t.Providers(n), t.Providers(n)) by {
      ShrunkSame(t.Providers(n));
    }
  }

  lemma {:induction false} ShrunkSame(p: seq<string>)
    ensures Shrunk(p, p)
  {
  }

  lemma {:induction false} DropRegionShrinks(t: Table, id: string, n: string)
    requires t.Valid()
    ensures Shrunk(t.Providers(n), DropRegion(t, id).Providers(n))
  {
    hide DistinctKeys, HasKey, NoDup, Without, DropFromAll, Drop;
    DropFromAllProviders(t.robin, id, n);
    DropShrinks(t.Providers(n), id);
  }

  lemma {:induction false} ExpireRegionsShrinks(t: Table, limits: nat, now: nat, n: string)
    requires t.Valid()
    ensures Shrunk(t.Providers(n), ExpireRegions(t, limits, now).Providers(n))
    decreases limits
  {
    hide Table.Valid, DropRegion, Shrunk;
    if !(limits == 0 || t.regions == [] || t.regions[0].timeval + REGION_TIMEOUT_MS > now) {
      var u := DropRegion(t, t.regions[0].id);
      DropRegionValid(t, t.regions[0].id);
      DropRegionShrinks(t, t.regions[0].id, n);
      ExpireRegionsShrinks(u, limits - 1, now, n);
      ShrunkTwice(t.Providers(n), u.Providers(n), ExpireRegions(t, limits, now).Providers(n));
    } else {
      ShrunkSame(t.Providers(n));
    }
  }

  lemma {:induction false} ExpireServicesShrinks(t: Table, limits: nat, now: nat, n: string)
    requires t.Valid()
    ensures Shrunk(t.Providers(n), ExpireServices(t, limits, now).Providers(n))
    decreases limits
  {
    hide Table.Valid, RemoveService, Shrunk;
    if !(limits == 0 || t.services == [] || t.services[0].service.timeval + SERVICE_TIMEOUT_MS > now) {
      var id, name := t.services[0].region, t.services[0].service.name;
      var u := RemoveService(t, id, name);
      RemoveServiceValid(t, id, name);
      RemoveServiceShrinks(t, id, name, n);
      ExpireServicesShrinks(u, limits - 1, now, n);
      ShrunkTwice(t.Providers(n), u.Providers(n), ExpireServices(t, limits, now).Providers(n));
    } else {
      ShrunkSame(t.Providers(n));
    }
  }

  lemma {:induction false} ExpirePayloadsRobin(t: Table, limits: nat, now: nat)
    ensures ExpirePayloads(t, limits, now).robin == t.robin
    decreases limits
  {
    if !(limits == 0 || t.payloads == [] || t.payloads[0].payload.timeval + PAYLOAD_TIMEOUT_MS > now) {
      ExpirePayloadsRobin(RemovePayload(t, t.payloads[0].region, t.payloads[0].payload.id), limits - 1, now);
    }
  }

  lemma {:induction false} TimerShrinks(t: Table, now: nat, n: string)
    requires t.Valid()
    ensures Shrunk(t.Providers(n), CheckTimer(t, now).Providers(n))
  {
    hide Table.Valid, ExpireRegions, ExpireServices, ExpirePayloads, Shrunk;
    var t1 := ExpireRegions(t, 3, now);
    var t2 := ExpireServices(t1, 100, now);
    ExpireRegionsValid(t, 3, now);
    ExpireRegionsShrinks(t, 3, now, n);
    ExpireServicesShrinks(t1, 100, now, n);
    ExpirePayloadsRobin(t2, 100, now);
    ShrunkTwice(t.Providers(n), t1.Providers(n), t2.Providers(n));
  }

  /** A provider that is announced again keeps its place; a new one queues at the back. */
  lemma {:induction false} JoinsAtBack(t: Table, id: string, s: Service, n: string)
    ensures PutService(t, id, s).Providers(n)
         == if n == s.name && id !in t.Providers(n) then t.Providers(n) + [id] else t.Providers(n)
  {
    WithProvidersOf(t.robin, s.name, Joined(t.Providers(s.name), id));
  }

  lemma {:induction false} MergeJoins(t: Table, id: string, ss: seq<Service>, n: string)
    ensures var p, q := t.Providers(n), PutServices(t, id, ss).Providers(n);
            q == p || (id !in p && q == p + [id])
  {
    hide PutService, Table.Providers;
    if ss != [] {
      MergeJoins(t, id, ss[..|ss| - 1], n);
      JoinsAtBack(PutServices(t, id, ss[..|ss| - 1]), id, ss[|ss| - 1], n);
    }
  }

  lemma {:induction false} PutPayloadsRobin(t: Table, id: string, ps: seq<Payload>)
    ensures PutPayloads(t, id, ps).robin == t.robin
  {
    hide Without;
    if ps != [] {
      PutPayloadsRobin(t, id, ps[..|ps| - 1]);
    }
  }

  /** Asking for the service moves the first provider to the back.  Anything else that leaves the
      set of providers alone leaves their order alone. */
  lemma {:induction false} OpProviders(t: Table, op: Op, n: string)
    requires t.Valid()
    ensures var p, q := t.Providers(n), Do(t, op).Providers(n);
            if op == OpRobin(n) then q == (if p == [] then p else p[1..] + [p[0]])
            else SameSet(p, q) ==> q == p
  {
    hide Table.Valid, Without, HasKey, DropRegion, RemoveService, CheckTimer, PutService, PutServices, PutPayloads,
      VersionedRegions;
    match op
    case OpRegion(r) =>
    case OpRmRegion(id) => DropRegionShrinks(t, id, n);
    case OpService(id, v, s) => JoinsAtBack(t, id, s, n);
    case OpRmService(id, v, name) => RemoveServiceShrinks(t, id, name, n);
    case OpPayload(id, v, p) =>
    case OpRmPayload(id, v, p) =>
    case OpMerge(r, ss, ps) =>
      var u := t.(regions := t.regions + [r]);
      MergeJoins(u, r.id, ss, n);
      PutPayloadsRobin(PutServices(u, r.id, ss), r.id, ps);
      assert u.Providers(n) == t.Providers(n);
    case OpRobin(name) =>
    case OpTimer(now) => TimerShrinks(t, now, n);
  }

  /** The regions that the calls for `n` were routed to, in order. */
  function Routed(t: Table, ops: seq<Op>, n: string): seq<string> {
    if ops == [] then []
    else
      var init := ops[..|ops| - 1];
      var p := DoAll(t, init).Providers(n);
      Routed(t, init, n) + if ops[|ops| - 1] == OpRobin(n) && p != [] then [p[0]] else []
  }

  /** No operation adds or removes a provider of `n`. */
  ghost predicate Steady(t: Table, ops: seq<Op>, n: string) {
    ops == [] ||
    (Steady(t, ops[..|ops| - 1], n) && SameSet(DoAll(t, ops[..|ops| - 1]).Providers(n), DoAll(t, ops).Providers(n)))
  }

  lemma {:induction false} DoAllValid(t: Table, ops: seq<Op>)
    requires t.Valid()
    ensures DoAll(t, ops).Valid()
  {
    hide Table.Valid, Do;
    if ops != [] {
      DoAllValid(t, ops[..|ops| - 1]);
      DoValid(DoAll(t, ops[..|ops| - 1]), ops[|ops| - 1]);
    }
  }

  lemma {:induction false} RotateOnce(p: seq<string>, j: nat)
    requires j < |p|
    ensures var u := p[j..] + p[..j];
            u[0] == p[j] && u[1..] + [u[0]] == p[j + 1..] + p[..j + 1] && p[..j + 1] == p[..j] + [p[j]]
  {
  }

  /** Up to as many calls as there are providers are routed to the providers in order. */
  lemma {:induction false} RoutedInOrder(t: Table, ops: seq<Op>, n: string)
    requires t.Valid() && Steady(t, ops, n)
    requires |Routed(t, ops, n)| <= |t.Providers(n)|
    ensures var p, k := t.Providers(n), |Routed(t, ops, n)|;
            && Routed(t, ops, n) == p[..k]
            && DoAll(t, ops).Providers(n) == p[k..] + p[..k]
  {
    hide Table.Valid, Do, Table.Providers, SameSet;
    var p := t.Providers(n);
    if ops == [] {
      assert p[0..] + p[..0] == p;
    } else {
      var init, op := ops[..|ops| - 1], ops[|ops| - 1];
      var u := DoAll(t, init);
      RoutedInOrder(t, init, n);
      DoAllValid(t, init);
      OpProviders(u, op, n);
      var j := |Routed(t, init, n)|;
      if op == OpRobin(n) && u.Providers(n) != [] {
        RotateOnce(p, j);
      }
    }
  }

  /** Fairness: of k providers, k calls ask each exactly once and leave the order as it was, whatever
      else happens to the table meanwhile, as long as no provider joins or leaves. */
  lemma {:induction false} RobinIsFair(t: Table, ops: seq<Op>, n: string)
    requires t.Valid() && Steady(t, ops, n) && |Routed(t, ops, n)| == |t.Providers(n)|
    ensures Routed(t, ops, n) == t.Providers(n) && NoDup(Routed(t, ops, n))
    ensures DoAll(t, ops).Providers(n) == t.Providers(n)
    ensures forall r :: HasKey(t.services, ProvidedKey, ServiceId(r, n)) <==> r in Routed(t, ops, n)
  {
    hide Steady, Routed, DoAll, DistinctKeys;
    RoutedInOrder(t, ops, n);
    var p := t.Providers(n);
    assert p[..|p|] == p && p[|p|..] + p[..|p|] == p;
  }

  // Removal of a region

  /** After a region was removed no list or index mentions it, a name is indexed exactly while it has
      another provider, and everything else keeps its value and its place relative to the others. */
  lemma {:induction false} RemovalIsExact(t: Table, id: string)
    requires t.Valid()
    ensures var u := DropRegion(t, id);
            && !u.Has(id)
            && (forall p :: p in u.services <==> p in t.services && p.region != id)
            && (forall c :: c in u.payloads <==> c in t.payloads && c.region != id)
            && (forall n :: u.Providers(n) == Drop(t.Providers(n), id) && id !in u.Providers(n))
            && (forall n :: n in u.robin <==> exists r :: r in t.Providers(n) && r != id)
    ensures KeepsOrder(t.regions, DropRegion(t, id).regions, RegionKey, id)
    ensures KeepsOrder(t.services, DropRegion(t, id).services, ProvidedRegion, id)
    ensures KeepsOrder(t.payloads, DropRegion(t, id).payloads, CarriedRegion, id)
  {
    hide Without, DistinctKeys, HasKey, Drop, NoDup, Kept, KeepsOrder;
    var u := DropRegion(t, id);
    WithoutMembers(t.services, ProvidedRegion, id);
    WithoutMembers(t.payloads, CarriedRegion, id);
    WithoutIsOrdered(t.regions, RegionKey, id);
    WithoutIsOrdered(t.services, ProvidedRegion, id);
    WithoutIsOrdered(t.payloads, CarriedRegion, id);
    DropRegionValid(t, id);
    forall n
      ensures u.Providers(n) == Drop(t.Providers(n), id) && id !in u.Providers(n)
      ensures n in u.robin <==> exists r :: r in t.Providers(n) && r != id
    {
      DropFromAllProviders(t.robin, id, n);
      DropNoDup(t.Providers(n), id);
      assert n in u.robin <==> u.Providers(n) != [];
      if u.Providers(n) != [] {
        assert u.Providers(n)[0] in u.Providers(n);
      }
    }
  }
}
