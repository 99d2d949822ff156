/** What every operation does to the rows of the tracker's table: which row is new, where it is, what its
    stamp is, and what stays. */
module TableEffects {
  import opened Types
  import opened Lists
  import opened Keyed
  import opened TrackerSpec
  import opened TrackerInvariant
  import opened RoundRobin
  import opened Ordering
  import opened Sweep
  import opened Expiry

  /** The region has the version, and nothing else has changed. */
  predicate Reversioned(rs: seq<Region>, us: seq<Region>, id: string, v: uint32) {
    && |us| == |rs|
    && forall i :: 0 <= i < |rs| ==> us[i] == if rs[i].id == id then rs[i].(version := v) else rs[i]
  }

  /** A region's payload: its row carries the stamp of the publication, whoever had it before. */
  lemma {:induction false} PayloadEffect(t: Table, id: string, v: uint32, pl: Payload)
    requires t.Valid() && t.Has(id)
    ensures var u := Do(t, OpPayload(id, v, pl));
            && PutLast(t.payloads, u.payloads, CarriedKey, Carried(id, pl))
            && u.services == t.services && u.robin == t.robin && Reversioned(t.regions, u.regions, id, v)
  {
    hide PutLast, Without;
    PutIsLast(t.payloads, CarriedKey, Carried(id, pl));
  }

  /** A region's service, and who provides the name. */
  lemma {:induction false} ServiceEffect(t: Table, id: string, v: uint32, svc: Service)
    requires t.Valid() && t.Has(id)
    ensures var u := Do(t, OpService(id, v, svc));
            && PutLast(t.services, u.services, ProvidedKey, Provided(id, svc))
            && u.payloads == t.payloads && Reversioned(t.regions, u.regions, id, v)
            && forall n :: u.Providers(n) ==
                           if n == svc.name && id !in t.Providers(n) then t.Providers(n) + [id] else t.Providers(n)
  {
    hide PutLast, Without, WithProviders, ProvidersOf;
    PutIsLast(t.services, ProvidedKey, Provided(id, svc));
    forall n
      ensures PutService(t, id, svc).Providers(n) ==
              if n == svc.name && id !in t.Providers(n) then t.Providers(n) + [id] else t.Providers(n)
    {
      JoinsAtBack(t, id, svc, n);
    }
  }

  lemma {:induction false} RemovalEffect(t: Table, id: string, v: uint32, name: string, pid: string)
    requires t.Valid() && t.Has(id)
    ensures var u := Do(t, OpRmService(id, v, name));
            && KeepsOrder(t.services, u.services, ProvidedKey, ServiceId(id, name))
            && u.payloads == t.payloads && Reversioned(t.regions, u.regions, id, v)
            && forall n :: u.Providers(n) == if n == name then Drop(t.Providers(n), id) else t.Providers(n)
    ensures var u := Do(t, OpRmPayload(id, v, pid));
            && KeepsOrder(t.payloads, u.payloads, CarriedBoth, PayloadId(id, pid))
            && u.services == t.services && u.robin == t.robin && Reversioned(t.regions, u.regions, id, v)
  {
    hide KeepsOrder, Without, WithProviders, Drop;
    WithoutIsOrdered(t.services, ProvidedKey, ServiceId(id, name));
    WithoutIsOrdered(t.payloads, CarriedBoth, PayloadId(id, pid));
    WithProvidersOf(t.robin, name, Drop(t.Providers(name), id));
  }

  /** An announcement replaces the record and its stamp; a withdrawal takes everything of the region. */
  lemma {:induction false} RegionEffect(t: Table, r: Region)
    requires t.Valid() && t.Has(r.id)
    ensures var u := Do(t, OpRegion(r));
            && PutLast(t.regions, u.regions, RegionKey, r)
            && u.services == t.services && u.payloads == t.payloads && u.robin == t.robin
    ensures var u := Do(t, OpRmRegion(r.id));
            && KeepsOrder(t.regions, u.regions, RegionKey, r.id)
            && KeepsOrder(t.services, u.services, ProvidedRegion, r.id)
            && KeepsOrder(t.payloads, u.payloads, CarriedRegion, r.id)
            && forall n :: u.Providers(n) == Drop(t.Providers(n), r.id)
  {
    hide PutLast, KeepsOrder, Without, Drop;
    PutIsLast(t.regions, RegionKey, r);
    RemovalIsExact(t, r.id);
  }

  /** A publication of a region that is not in the table changes nothing. */
  lemma {:induction false} UnknownEffect(t: Table, op: Op, id: string)
    requires !t.Has(id)
    requires match op
             case OpRegion(r) => r.id == id
             case OpRmRegion(x) => x == id
             case OpService(x, _, _) => x == id
             case OpRmService(x, _, _) => x == id
             case OpPayload(x, _, _) => x == id
             case OpRmPayload(x, _, _) => x == id
             case _ => false
    ensures Do(t, op) == t
  {
    hide Table.Has;
  }

  /** A merged region brings its rows, stamps and all, to the back in their order; only payloads that
      it takes over leave. */
  lemma {:induction false} MergeEffect(t: Table, r: Region, ss: seq<Service>, ps: seq<Payload>)
    requires t.Valid() && !t.Has(r.id) && DistinctKeys(ss, ServiceKey) && DistinctKeys(ps, PayloadKey)
    ensures var u := Do(t, OpMerge(r, ss, ps));
            var n := |u.payloads| - |ps|;
            && u.regions == t.regions + [r]
            && |u.services| == |t.services| + |ss| && u.services[..|t.services|] == t.services
            && (forall i :: 0 <= i < |ss| ==> u.services[|t.services| + i] == Provided(r.id, ss[i]))
            && n >= 0 && Subsequence(t.payloads, u.payloads[..n])
            && (forall c :: c in u.payloads[..n] <==> c in t.payloads && !HasKey(ps, PayloadKey, c.payload.id))
            && (forall i :: 0 <= i < |ps| ==> u.payloads[n + i] == Carried(r.id, ps[i]))
  {
    hide Table.Valid, Table.Has, Merge, Subsequence, Others, PutAll, DistinctKeys, HasKey;
    MergedRows(t, r, ss, ps);
    RowsDistinct(r.id, ss, ps);
    PutAllDistinct(ProvidedKey, ProvidedRows(r.id, ss));
    PutAllDistinct(CarriedKey, CarriedOf(r.id, ps));
    OthersAre(t.payloads, CarriedKey, CarriedOf(r.id, ps));
    OthersInOrder(t.payloads, CarriedKey, CarriedOf(r.id, ps));
    MergeIs(t, r, ss, ps);
    CarriedHas(r.id, ps);
    var kept := Others(t.payloads, CarriedKey, CarriedOf(r.id, ps));
    assert (kept + CarriedOf(r.id, ps))[..|kept|] == kept;
  }

  lemma {:induction false} KnownIsNotMerged(t: Table, r: Region, ss: seq<Service>, ps: seq<Payload>)
    requires t.Has(r.id)
    ensures Do(t, OpMerge(r, ss, ps)) == t
  {
    hide PutServices, PutPayloads;
  }

  lemma {:induction false} MergeIs(t: Table, r: Region, ss: seq<Service>, ps: seq<Payload>)
    ensures Do(t, OpMerge(r, ss, ps)) == Merge(t, r, ss, ps)
  {
    hide Merge;
  }

  lemma {:induction false} CarriedHas(id: string, ps: seq<Payload>)
    ensures forall k :: HasKey(CarriedOf(id, ps), CarriedKey, k) <==> HasKey(ps, PayloadKey, k)
  {
    forall k
      ensures HasKey(CarriedOf(id, ps), CarriedKey, k) <==> HasKey(ps, PayloadKey, k)
    {
      assert forall i :: 0 <= i < |ps| ==> CarriedKey(CarriedOf(id, ps)[i]) == PayloadKey(ps[i]);
    }
  }

  lemma {:induction false} OthersInOrder<V(!new), K>(s: seq<V>, key: V -> K, vs: seq<V>)
    ensures Subsequence(s, Others(s, key, vs))
  {
    hide Subsequence;
    if vs != [] {
      var init := vs[..|vs| - 1];
      OthersInOrder(s, key, init);
      WithoutIsSubsequence(Others(s, key, init), key, key(vs[|vs| - 1]));
      SubsequenceTwice(s, Others(s, key, init), Others(s, key, vs));
    } else {
      AllOf(s);
    }
  }

  lemma {:induction false} AllOf<V(!new)>(s: seq<V>)
    ensures Subsequence(s, s)
  {
    var p: seq<nat> := seq(|s|, i => i);
    assert Rises(p, |s|);
  }

  /** Asking for a service changes nothing but whose turn it is. */
  lemma {:induction false} RobinEffect(t: Table, name: string)
    ensures var u := Do(t, OpRobin(name));
            && u.regions == t.regions && u.services == t.services && u.payloads == t.payloads
            && forall n :: u.Providers(n) ==
                           if n == name && t.Providers(n) != [] then t.Providers(n)[1..] + [t.Providers(n)[0]]
                           else t.Providers(n)
  {
  }

  // The timer

  /** The rows of `s` whose region is not among `gone`, in order. */
  ghost predicate RowsOfOthers<V(!new)>(s: seq<V>, w: seq<V>, key: V -> string, gone: seq<Region>) {
    && Subsequence(s, w)
    && (forall v :: v in w <==> v in s && !HasKey(gone, RegionKey, key(v)))
  }

  lemma {:induction false} DroppedInOrder(t: Table, ids: seq<string>)
    ensures Subsequence(t.services, DropRegions(t, ids).services)
    ensures Subsequence(t.payloads, DropRegions(t, ids).payloads)
    decreases |ids|
  {
    hide Subsequence, Without;
    if ids == [] {
      AllOf(t.services);
      AllOf(t.payloads);
    } else {
      var u := DropRegion(t, ids[0]);
      DroppedInOrder(u, ids[1..]);
      WithoutIsSubsequence(t.services, ProvidedRegion, ids[0]);
      WithoutIsSubsequence(t.payloads, CarriedRegion, ids[0]);
      SubsequenceTwice(t.services, u.services, DropRegions(t, ids).services);
      SubsequenceTwice(t.payloads, u.payloads, DropRegions(t, ids).payloads);
    }
  }

  /** The timer: of the regions the front that has waited 30 seconds, at most three; with them all
      their rows; of the services and payloads that are left the front that has waited 125 seconds, at
      most a hundred each.  Everything else stays as it is. */
  lemma {:induction false} TimerEffect(t: Table, now: nat)
    returns (k: nat, m: nat, n: nat, ss: seq<Provided>, ps: seq<Carried>)
    requires t.Valid()
    ensures Front(t.regions, RegionAge, k, 30000, now, 3) && k <= |t.regions|
    ensures RowsOfOthers(t.services, ss, ProvidedRegion, t.regions[..k])
    ensures RowsOfOthers(t.payloads, ps, CarriedRegion, t.regions[..k])
    ensures Front(ss, ProvidedAge, m, 125000, now, 100) && m <= |ss|
    ensures Front(ps, CarriedAge, n, 125000, now, 100) && n <= |ps|
    ensures var u := Do(t, OpTimer(now));
            u.regions == t.regions[k..] && u.services == ss[m..] && u.payloads == ps[n..]
  {
    hide Table.Valid, CheckTimer, DropRegions, HasKey, Subsequence;
    var gone := Timeouted(t, now);
    var t1 := DropRegions(t, Ids(gone));
    TimerIsExact(t, now);
    DroppedRows(t, Ids(gone));
    DroppedInOrder(t, Ids(gone));
    k, ss, ps := |gone|, t1.services, t1.payloads;
    m := Min(100, ExpiredPrefix(ss, ProvidedAge, now - SERVICE_TIMEOUT_MS));
    n := Min(100, ExpiredPrefix(ps, CarriedAge, now - PAYLOAD_TIMEOUT_MS));
    IdsHave(gone);
  }

  lemma {:induction false} IdsHave(rs: seq<Region>)
    ensures forall id :: id in Ids(rs) <==> HasKey(rs, RegionKey, id)
  {
    assert forall i :: 0 <= i < |rs| ==> Ids(rs)[i] == RegionKey(rs[i]);
  }
}
