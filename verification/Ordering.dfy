/** The lists are kept in the order of their time stamps, least recently updated first. */
module Ordering {
  import opened Types
  import opened Lists
  import opened Keyed
  import opened Sweep
  import RegionSpec
  import opened TrackerSpec
  import opened TrackerInvariant
  import opened Expiry

  /** Sorted by age, and nothing is stamped later than now. */
  ghost predicate UpTo<V>(s: seq<V>, age: V -> nat, now: nat) {
    Sorted(s, age) && forall v :: v in s ==> age(v) <= now
  }

  lemma {:induction false} AppendUpTo<V>(s: seq<V>, v: V, age: V -> nat, now: nat)
    requires UpTo(s, age, now) && age(v) == now
    ensures UpTo(s + [v], age, now)
  {
    var t := s + [v];
    forall i, j | 0 <= i < j < |t|
      ensures age(t[i]) <= age(t[j])
    {
      assert i < |s| ==> s[i] in s;
      assert j < |s| ==> age(s[i]) <= age(s[j]);
    }
  }

  lemma {:induction false} WithoutUpTo<V, K>(s: seq<V>, key: V -> K, k: K, age: V -> nat, now: nat)
    requires UpTo(s, age, now)
    ensures UpTo(Without(s, key, k), age, now)
  {
    SortedWithout(s, key, k, age);
    WithoutKeepsOrder(s, key, k);
    var w, p := Without(s, key, k), Kept(s, key, k);
    forall i | 0 <= i < |w|
      ensures age(w[i]) <= now
    {
      assert s[p[i]] in s;
    }
  }

  lemma {:induction false} TailUpTo<V>(s: seq<V>, n: nat, age: V -> nat, now: nat)
    requires UpTo(s, age, now) && n <= |s|
    ensures UpTo(s[n..], age, now)
  {
    var t := s[n..];
    forall i, j | 0 <= i < j < |t|
      ensures age(t[i]) <= age(t[j])
    {
      assert age(s[n + i]) <= age(s[n + j]);
    }
  }

  // The region's table

  ghost predicate RegionOrdered(s: RegionSpec.RegionState, now: nat) {
    UpTo(s.services, RegionSpec.ServiceAge, now) && UpTo(s.payloads, RegionSpec.PayloadAge, now)
  }

  /** New records are stamped now, timers run now and have a timeout that the clock has passed. */
  predicate HappensAt(e: RegionSpec.Event, now: nat) {
    match e
    case AddService(s) => s.timeval == now
    case AddPayload(p) => p.timeval == now
    case PubRepeatedTimer(ss, sp, n, n') => n == now && n' == now && 0 < ss * 1000 <= now && 0 < sp * 1000 <= now
    case _ => true
  }

  /** Records that are added go to the back, and so do those that are republished: with a monotone
      clock both lists of a region stay sorted. */
  lemma {:induction false} RegionStaysOrdered(s: RegionSpec.RegionState, e: RegionSpec.Event, now: nat)
    requires RegionSpec.Enabled(s, e) && RegionOrdered(s, now) && HappensAt(e, now)
    ensures RegionOrdered(RegionSpec.Step(s, e), now)
  {
    hide UpTo, Without, SweepList, HasKey;
    match e
    case AddService(svc) => AppendUpTo(s.services, svc, RegionSpec.ServiceAge, now);
    case RmService(name) => WithoutUpTo(s.services, ServiceKey, name, RegionSpec.ServiceAge, now);
    case AddPayload(pl) => AppendUpTo(s.payloads, pl, RegionSpec.PayloadAge, now);
    case RmPayload(id) => WithoutUpTo(s.payloads, PayloadKey, id, RegionSpec.PayloadAge, now);
    case PubRepeatedTimer(ss, sp, n, n') =>
      SweptUpTo(s.services, RegionSpec.ServiceAge, RegionSpec.StampService, ss * 1000, now,
                RegionSpec.SERVICE_MAXCOUNT);
      SweptUpTo(s.payloads, RegionSpec.PayloadAge, RegionSpec.StampPayload, sp * 1000, now,
                RegionSpec.PayloadBudget(|s.payloads|, sp));
    case _ =>
  }

  lemma {:induction false} SweptUpTo<V(!new)>(s: seq<V>, age: V -> nat, stamp: (V, nat) -> V, timeout: nat, now: nat,
                                              maxcount: nat)
    requires UpTo(s, age, now) && 0 < timeout <= now
    requires forall v, t :: age(stamp(v, t)) == t
    ensures UpTo(SweepList(s, age, stamp, Sub64(now, timeout), now, maxcount).list, age, now)
  {
    SweepKeepsSorted(s, age, stamp, timeout, now, maxcount);
  }

  // The tracker's table

  ghost predicate TableOrdered(t: Table, now: nat) {
    && UpTo(t.regions, RegionAge, now)
    && UpTo(t.services, ProvidedAge, now)
    && UpTo(t.payloads, CarriedAge, now)
  }

  /** The record of a publication is stamped on receipt. */
  predicate StampedAt(op: Op, now: nat) {
    match op
    case OpRegion(r) => r.timeval == now
    case OpService(_, _, s) => s.timeval == now
    case OpPayload(_, _, p) => p.timeval == now
    case OpMerge(_, _, _) => false
    case _ => true
  }

  lemma {:induction false} VersionOrdered(rs: seq<Region>, id: string, v: uint32, now: nat)
    requires UpTo(rs, RegionAge, now)
    ensures UpTo(VersionedRegions(rs, id, v), RegionAge, now)
  {
    var r := VersionedRegions(rs, id, v);
    forall i | 0 <= i < |r|
      ensures RegionAge(r[i]) == RegionAge(rs[i]) <= now
    {
      assert rs[i] in rs;
    }
  }

  lemma {:induction false} DropOrdered(t: Table, id: string, now: nat)
    requires TableOrdered(t, now)
    ensures TableOrdered(DropRegion(t, id), now)
  {
    hide UpTo, Without, DropFromAll;
    WithoutUpTo(t.regions, RegionKey, id, RegionAge, now);
    WithoutUpTo(t.services, ProvidedRegion, id, ProvidedAge, now);
    WithoutUpTo(t.payloads, CarriedRegion, id, CarriedAge, now);
  }

  lemma {:induction false} DropsOrdered(t: Table, ids: seq<string>, now: nat)
    requires TableOrdered(t, now)
    ensures TableOrdered(DropRegions(t, ids), now)
    decreases |ids|
  {
    hide TableOrdered, DropRegion;
    if ids != [] {
      DropOrdered(t, ids[0], now);
      DropsOrdered(DropRegion(t, ids[0]), ids[1..], now);
    }
  }

  lemma {:induction false} TimerOrdered(t: Table, now: nat)
    requires t.Valid() && TableOrdered(t, now)
    ensures TableOrdered(CheckTimer(t, now), now)
  {
    hide Table.Valid, CheckTimer, DropRegions, Ids, UpTo, ExpiredPrefix;
    TimerIsExact(t, now);
    var gone := Timeouted(t, now);
    var t1 := DropRegions(t, Ids(gone));
    DropsOrdered(t, Ids(gone), now);
    TailUpTo(t.regions, |gone|, RegionAge, now);
    TailUpTo(t1.services, Min(100, ExpiredPrefix(t1.services, ProvidedAge, now - SERVICE_TIMEOUT_MS)),
             ProvidedAge, now);
    TailUpTo(t1.payloads, Min(100, ExpiredPrefix(t1.payloads, CarriedAge, now - PAYLOAD_TIMEOUT_MS)), CarriedAge, now);
  }

  /** What is updated goes to the back: with a monotone clock publications, removals and expiry keep
      the three lists sorted. */
  lemma {:induction false} TableStaysOrdered(t: Table, op: Op, now: nat)
    requires t.Valid() && TableOrdered(t, now) && StampedAt(op, now) && (op.OpTimer? ==> op.now == now)
    ensures TableOrdered(Do(t, op), now)
  {
    hide Table.Valid, UpTo, Without, HasKey, VersionedRegions, DropRegion, CheckTimer, WithProviders, ProvidersOf;
    match op
    case OpRegion(r) =>
      WithoutUpTo(t.regions, RegionKey, r.id, RegionAge, now);
      AppendUpTo(Without(t.regions, RegionKey, r.id), r, RegionAge, now);
    case OpRmRegion(id) => DropOrdered(t, id, now);
    case OpService(id, v, s) =>
      WithoutUpTo(t.services, ProvidedKey, ServiceId(id, s.name), ProvidedAge, now);
      AppendUpTo(Without(t.services, ProvidedKey, ServiceId(id, s.name)), Provided(id, s), ProvidedAge, now);
      VersionOrdered(t.regions, id, v, now);
    case OpRmService(id, v, n) =>
      WithoutUpTo(t.services, ProvidedKey, ServiceId(id, n), ProvidedAge, now);
      VersionOrdered(t.regions, id, v, now);
    case OpPayload(id, v, p) =>
      WithoutUpTo(t.payloads, CarriedKey, p.id, CarriedAge, now);
      AppendUpTo(Without(t.payloads, CarriedKey, p.id), Carried(id, p), CarriedAge, now);
      VersionOrdered(t.regions, id, v, now);
    case OpRmPayload(id, v, p) =>
      WithoutUpTo(t.payloads, CarriedBoth, PayloadId(id, p), CarriedAge, now);
      VersionOrdered(t.regions, id, v, now);
    case OpRobin(n) =>
    case OpTimer(_) => TimerOrdered(t, now);
  }

  // A merge

  /** Putting rows one after another: each goes to the back, in place of the row with its key. */
  function PutAll<V, K(==)>(s: seq<V>, key: V -> K, vs: seq<V>): seq<V> {
    if vs == [] then s
    else
      var v := vs[|vs| - 1];
      Without(PutAll(s, key, vs[..|vs| - 1]), key, key(v)) + [v]
  }

  /** The rows whose keys are not put. */
  function Others<V, K(==)>(s: seq<V>, key: V -> K, vs: seq<V>): seq<V> {
    if vs == [] then s else Without(Others(s, key, vs[..|vs| - 1]), key, key(vs[|vs| - 1]))
  }

  lemma {:induction false} PutAllSplits<V, K>(s: seq<V>, key: V -> K, vs: seq<V>)
    ensures PutAll(s, key, vs) == Others(s, key, vs) + PutAll([], key, vs)
  {
    if vs != [] {
      var init, v := vs[..|vs| - 1], vs[|vs| - 1];
      PutAllSplits(s, key, init);
      WithoutAppend(Others(s, key, init), PutAll([], key, init), key, key(v));
    } else {
      assert s + [] == s;
    }
  }

  /** Rows with distinct keys are put as they are. */
  lemma {:induction false} PutAllDistinct<V, K>(key: V -> K, vs: seq<V>)
    requires DistinctKeys(vs, key)
    ensures PutAll([], key, vs) == vs
  {
    if vs != [] {
      DistinctPrefix(vs, key, |vs| - 1);
      PutAllDistinct(key, vs[..|vs| - 1]);
      LastKeyNew(vs, key);
      WithoutNone(vs[..|vs| - 1], key, key(vs[|vs| - 1]));
    }
  }

  lemma {:induction false} OthersUpTo<V, K>(s: seq<V>, key: V -> K, vs: seq<V>, age: V -> nat, now: nat)
    requires UpTo(s, age, now)
    ensures UpTo(Others(s, key, vs), age, now)
  {
    hide UpTo;
    if vs != [] {
      OthersUpTo(s, key, vs[..|vs| - 1], age, now);
      WithoutUpTo(Others(s, key, vs[..|vs| - 1]), key, key(vs[|vs| - 1]), age, now);
    }
  }

  /** The others are the rows of another key. */
  lemma {:induction false} OthersAre<V, K>(s: seq<V>, key: V -> K, vs: seq<V>)
    ensures forall x :: x in Others(s, key, vs) <==> x in s && !HasKey(vs, key, key(x))
  {
    if vs != [] {
      hide HasKey;
      var init, v := vs[..|vs| - 1], vs[|vs| - 1];
      OthersAre(s, key, init);
      WithoutMembers(Others(s, key, init), key, key(v));
      assert vs == init + [v];
      forall x
        ensures HasKey(vs, key, key(x)) <==> HasKey(init, key, key(x)) || key(v) == key(x)
      {
        HasAppend(init, v, key, key(x));
      }
      forall x
        ensures x in Others(s, key, vs) <==> x in s && !HasKey(vs, key, key(x))
      {
        assert x in Others(s, key, vs) <==> x in Others(s, key, init) && key(x) != key(v);
      }
    }
  }

  lemma {:induction false} OthersNone<V, K>(s: seq<V>, key: V -> K, vs: seq<V>)
    requires forall i :: 0 <= i < |vs| ==> !HasKey(s, key, key(vs[i]))
    ensures Others(s, key, vs) == s
  {
    if vs != [] {
      OthersNone(s, key, vs[..|vs| - 1]);
      WithoutNone(s, key, key(vs[|vs| - 1]));
    }
  }

  /** No row of `s` is stamped after a row of `t`. */
  ghost predicate Precedes<V>(s: seq<V>, t: seq<V>, age: V -> nat) {
    forall i, j :: 0 <= i < |s| && 0 <= j < |t| ==> age(s[i]) <= age(t[j])
  }

  lemma {:induction false} ConcatUpTo<V>(s: seq<V>, t: seq<V>, age: V -> nat, now: nat)
    requires UpTo(s, age, now)
    ensures UpTo(s + t, age, now) <==> UpTo(t, age, now) && Precedes(s, t, age)
  {
    var u := s + t;
    forall j | 0 <= j < |t|
      ensures u[|s| + j] == t[j]
    {
    }
    if UpTo(u, age, now) {
      forall i, j | 0 <= i < |s| && 0 <= j < |t|
        ensures age(s[i]) <= age(t[j])
      {
        assert age(u[i]) <= age(u[|s| + j]);
      }
      forall i, j | 0 <= i < j < |t|
        ensures age(t[i]) <= age(t[j])
      {
        assert age(u[|s| + i]) <= age(u[|s| + j]);
      }
      forall j | 0 <= j < |t|
        ensures age(t[j]) <= now
      {
        assert u[|s| + j] in u;
      }
    }
    if UpTo(t, age, now) && Precedes(s, t, age) {
      forall i, j | 0 <= i < j < |u|
        ensures age(u[i]) <= age(u[j])
      {
        if j < |s| {
          assert age(s[i]) <= age(s[j]);
        } else if i < |s| {
          assert age(s[i]) <= age(t[j - |s|]);
        } else {
          assert age(t[i - |s|]) <= age(t[j - |s|]);
        }
      }
    }
  }

  function ProvidedRows(id: string, ss: seq<Service>): (r: seq<Provided>)
    ensures |r| == |ss|
  {
    seq(|ss|, i requires 0 <= i < |ss| => Provided(id, ss[i]))
  }

  function CarriedOf(id: string, ps: seq<Payload>): (r: seq<Carried>)
    ensures |r| == |ps|
  {
    seq(|ps|, i requires 0 <= i < |ps| => Carried(id, ps[i]))
  }

  lemma {:induction false} ServicesPut(t: Table, id: string, ss: seq<Service>)
    ensures var u := PutServices(t, id, ss);
            u.services == PutAll(t.services, ProvidedKey, ProvidedRows(id, ss)) && u.regions == t.regions
            && u.payloads == t.payloads
  {
    hide Without, WithProviders;
    if ss != [] {
      ServicesPut(t, id, ss[..|ss| - 1]);
      assert ProvidedRows(id, ss)[..|ss| - 1] == ProvidedRows(id, ss[..|ss| - 1]);
    }
  }

  lemma {:induction false} PayloadsPut(t: Table, id: string, ps: seq<Payload>)
    ensures var u := PutPayloads(t, id, ps);
            u.payloads == PutAll(t.payloads, CarriedKey, CarriedOf(id, ps)) && u.regions == t.regions
            && u.services == t.services
  {
    hide Without;
    if ps != [] {
      PayloadsPut(t, id, ps[..|ps| - 1]);
      assert CarriedOf(id, ps)[..|ps| - 1] == CarriedOf(id, ps[..|ps| - 1]);
    }
  }

  /** The lists after a merge of a new region: what was there, but for the payloads that are taken
      over, and then what the region brings. */
  lemma {:induction false} MergedRows(t: Table, r: Region, ss: seq<Service>, ps: seq<Payload>)
    requires t.Valid() && !t.Has(r.id)
    ensures var u := Merge(t, r, ss, ps);
            && u.regions == t.regions + [r]
            && u.services == t.services + PutAll([], ProvidedKey, ProvidedRows(r.id, ss))
            && u.payloads ==
               Others(t.payloads, CarriedKey, CarriedOf(r.id, ps)) + PutAll([], CarriedKey, CarriedOf(r.id, ps))
  {
    hide PutAll, Others, DistinctKeys, Table.RobinValid, ProvidedRows, CarriedOf, PutServices, PutPayloads;
    var t1 := t.(regions := t.regions + [r]);
    ServicesPut(t1, r.id, ss);
    PayloadsPut(PutServices(t1, r.id, ss), r.id, ps);
    PutAllSplits(t.services, ProvidedKey, ProvidedRows(r.id, ss));
    PutAllSplits(t.payloads, CarriedKey, CarriedOf(r.id, ps));
    NoneProvided(t, r.id, ss);
  }

  lemma {:induction false} NoneProvided(t: Table, id: string, ss: seq<Service>)
    requires t.Valid() && !t.Has(id)
    ensures Others(t.services, ProvidedKey, ProvidedRows(id, ss)) == t.services
  {
    hide Others, DistinctKeys, Table.RobinValid;
    forall i | 0 <= i < |ss|
      ensures !HasKey(t.services, ProvidedKey, ProvidedKey(ProvidedRows(id, ss)[i]))
    {
      forall j | 0 <= j < |t.services|
        ensures ProvidedKey(t.services[j]) != ProvidedKey(ProvidedRows(id, ss)[i])
      {
        assert t.Has(t.services[j].region);
      }
    }
    OthersNone(t.services, ProvidedKey, ProvidedRows(id, ss));
  }

  /** On rows: a merge keeps the lists sorted exactly if the region is known already, or its record
      and what it brings follow what is there. */
  lemma {:induction false} MergeKeepsOrderIff(t: Table, r: Region, ss: seq<Service>, ps: seq<Payload>, now: nat)
    requires t.Valid() && TableOrdered(t, now)
    ensures TableOrdered(Merge(t, r, ss, ps), now) <==>
            var ns, np :=
              PutAll([], ProvidedKey, ProvidedRows(r.id, ss)), PutAll([], CarriedKey, CarriedOf(r.id, ps));
            || t.Has(r.id)
            || (&& UpTo([r], RegionAge, now) && Precedes(t.regions, [r], RegionAge)
                && UpTo(ns, ProvidedAge, now) && Precedes(t.services, ns, ProvidedAge)
                && UpTo(np, CarriedAge, now)
                && Precedes(Others(t.payloads, CarriedKey, CarriedOf(r.id, ps)), np, CarriedAge))
  {
    hide Table.Valid, Table.Has, PutAll, Others, UpTo, Precedes;
    if !t.Has(r.id) {
      MergedRows(t, r, ss, ps);
      ConcatUpTo(t.regions, [r], RegionAge, now);
      ConcatUpTo(t.services, PutAll([], ProvidedKey, ProvidedRows(r.id, ss)), ProvidedAge, now);
      OthersUpTo(t.payloads, CarriedKey, CarriedOf(r.id, ps), CarriedAge, now);
      ConcatUpTo(Others(t.payloads, CarriedKey, CarriedOf(r.id, ps)), PutAll([], CarriedKey, CarriedOf(r.id, ps)),
                 CarriedAge, now);
    }
  }

  /** The stamps a caller can read: the record is not older than a region that is there, the services
      and payloads are sorted and none is later than now, no service is older than one that is there
      and no payload older than one that stays with its owner. */
  ghost predicate ArrivesInOrder(t: Table, r: Region, ss: seq<Service>, ps: seq<Payload>, now: nat) {
    && r.timeval <= now && (forall x :: x in t.regions ==> x.timeval <= r.timeval)
    && UpTo(ss, RegionSpec.ServiceAge, now) && UpTo(ps, RegionSpec.PayloadAge, now)
    && (forall x, s :: x in t.services && s in ss ==> x.service.timeval <= s.timeval)
    && (forall x, p :: x in t.payloads && !HasKey(ps, PayloadKey, x.payload.id) && p in ps ==>
                         x.payload.timeval <= p.timeval)
  }

  /** A product, whose names and ids are distinct, merged: the order is kept exactly if the region is
      known already, and nothing happens, or it arrives in order. */
  lemma {:induction false} ProductKeepsOrderIff(t: Table, r: Region, ss: seq<Service>, ps: seq<Payload>, now: nat)
    requires t.Valid() && TableOrdered(t, now) && DistinctKeys(ss, ServiceKey) && DistinctKeys(ps, PayloadKey)
    ensures TableOrdered(Merge(t, r, ss, ps), now) <==> t.Has(r.id) || ArrivesInOrder(t, r, ss, ps, now)
  {
    hide Table.Valid, Table.Has, PutAll, Others, UpTo, Precedes, DistinctKeys, Merge, TableOrdered, ProvidedRows,
      CarriedOf;
    MergeKeepsOrderIff(t, r, ss, ps, now);
    RowsDistinct(r.id, ss, ps);
    PutAllDistinct(ProvidedKey, ProvidedRows(r.id, ss));
    PutAllDistinct(CarriedKey, CarriedOf(r.id, ps));
    RowsUpTo(r, ss, ps, now);
    RowsPrecede(t, r, ss, ps);
  }

  lemma {:induction false} RowsDistinct(id: string, ss: seq<Service>, ps: seq<Payload>)
    requires DistinctKeys(ss, ServiceKey) && DistinctKeys(ps, PayloadKey)
    ensures DistinctKeys(ProvidedRows(id, ss), ProvidedKey) && DistinctKeys(CarriedOf(id, ps), CarriedKey)
  {
    forall i, j | 0 <= i < j < |ss|
      ensures ProvidedKey(ProvidedRows(id, ss)[i]) != ProvidedKey(ProvidedRows(id, ss)[j])
    {
      assert ServiceKey(ss[i]) != ServiceKey(ss[j]);
    }
    forall i, j | 0 <= i < j < |ps|
      ensures CarriedKey(CarriedOf(id, ps)[i]) != CarriedKey(CarriedOf(id, ps)[j])
    {
      assert PayloadKey(ps[i]) != PayloadKey(ps[j]);
    }
  }

  /** Sorted and up to now, read by position. */
  lemma {:induction false} SameAges<V, W>(s: seq<V>, a: V -> nat, t: seq<W>, b: W -> nat, now: nat)
    requires |s| == |t| && forall i :: 0 <= i < |s| ==> a(s[i]) == b(t[i])
    ensures UpTo(s, a, now) ==> UpTo(t, b, now)
  {
    if UpTo(s, a, now) {
      forall i, j | 0 <= i < j < |t|
        ensures b(t[i]) <= b(t[j])
      {
        assert a(s[i]) <= a(s[j]);
      }
      forall i | 0 <= i < |t|
        ensures b(t[i]) <= now
      {
        assert s[i] in s;
      }
    }
  }

  lemma {:induction false} RowsUpTo(r: Region, ss: seq<Service>, ps: seq<Payload>, now: nat)
    ensures UpTo([r], RegionAge, now) <==> r.timeval <= now
    ensures UpTo(ProvidedRows(r.id, ss), ProvidedAge, now) <==> UpTo(ss, RegionSpec.ServiceAge, now)
    ensures UpTo(CarriedOf(r.id, ps), CarriedAge, now) <==> UpTo(ps, RegionSpec.PayloadAge, now)
  {
    assert r in [r] && RegionAge(r) == r.timeval;
    SameAges(ss, RegionSpec.ServiceAge, ProvidedRows(r.id, ss), ProvidedAge, now);
    SameAges(ProvidedRows(r.id, ss), ProvidedAge, ss, RegionSpec.ServiceAge, now);
    SameAges(ps, RegionSpec.PayloadAge, CarriedOf(r.id, ps), CarriedAge, now);
    SameAges(CarriedOf(r.id, ps), CarriedAge, ps, RegionSpec.PayloadAge, now);
  }

  lemma {:induction false} PrecedesMembers<V>(s: seq<V>, t: seq<V>, age: V -> nat)
    ensures Precedes(s, t, age) <==> forall x, y :: x in s && y in t ==> age(x) <= age(y)
  {
    if Precedes(s, t, age) {
      forall x, y | x in s && y in t
        ensures age(x) <= age(y)
      {
        var i :| 0 <= i < |s| && s[i] == x;
        var j :| 0 <= j < |t| && t[j] == y;
        assert age(s[i]) <= age(t[j]);
      }
    }
    if forall x, y :: x in s && y in t ==> age(x) <= age(y) {
      forall i, j | 0 <= i < |s| && 0 <= j < |t|
        ensures age(s[i]) <= age(t[j])
      {
        assert s[i] in s && t[j] in t;
      }
    }
  }

  lemma {:induction false} RowsPrecede(t: Table, r: Region, ss: seq<Service>, ps: seq<Payload>)
    ensures Precedes(t.regions, [r], RegionAge) <==> forall x :: x in t.regions ==> x.timeval <= r.timeval
    ensures Precedes(t.services, ProvidedRows(r.id, ss), ProvidedAge) <==>
            forall x, s :: x in t.services && s in ss ==> x.service.timeval <= s.timeval
    ensures Precedes(Others(t.payloads, CarriedKey, CarriedOf(r.id, ps)), CarriedOf(r.id, ps), CarriedAge) <==>
            forall x, p :: x in t.payloads && !HasKey(ps, PayloadKey, x.payload.id) && p in ps ==>
                             x.payload.timeval <= p.timeval
  {
    hide Precedes, Others, HasKey;
    var ns, np := ProvidedRows(r.id, ss), CarriedOf(r.id, ps);
    var others := Others(t.payloads, CarriedKey, np);
    PrecedesMembers(t.regions, [r], RegionAge);
    PrecedesMembers(t.services, ns, ProvidedAge);
    PrecedesMembers(others, np, CarriedAge);
    OthersAre(t.payloads, CarriedKey, np);
    SameKeys(r.id, ps);
    RowMembers(r.id, ss, ps);
    assert r in [r];
    if Precedes(t.services, ns, ProvidedAge) {
      forall x, s | x in t.services && s in ss
        ensures x.service.timeval <= s.timeval
      {
        assert ProvidedAge(x) <= ProvidedAge(Provided(r.id, s));
      }
    }
    if Precedes(others, np, CarriedAge) {
      forall x, p | x in t.payloads && !HasKey(ps, PayloadKey, x.payload.id) && p in ps
        ensures x.payload.timeval <= p.timeval
      {
        assert CarriedAge(x) <= CarriedAge(Carried(r.id, p));
      }
    }
  }

  lemma {:induction false} SameKeys(id: string, ps: seq<Payload>)
    ensures forall k :: HasKey(CarriedOf(id, ps), CarriedKey, k) <==> HasKey(ps, PayloadKey, k)
  {
    forall k
      ensures HasKey(CarriedOf(id, ps), CarriedKey, k) <==> HasKey(ps, PayloadKey, k)
    {
      if i :| 0 <= i < |ps| && PayloadKey(ps[i]) == k {
        assert CarriedKey(CarriedOf(id, ps)[i]) == k;
      }
      if i :| 0 <= i < |ps| && CarriedKey(CarriedOf(id, ps)[i]) == k {
        assert PayloadKey(ps[i]) == k;
      }
    }
  }

  lemma {:induction false} RowMembers(id: string, ss: seq<Service>, ps: seq<Payload>)
    ensures forall s :: s in ss <==> Provided(id, s) in ProvidedRows(id, ss)
    ensures forall x :: x in ProvidedRows(id, ss) ==> x == Provided(id, x.service)
    ensures forall p :: p in ps <==> Carried(id, p) in CarriedOf(id, ps)
    ensures forall x :: x in CarriedOf(id, ps) ==> x == Carried(id, x.payload)
  {
    forall s | s in ss
      ensures Provided(id, s) in ProvidedRows(id, ss)
    {
      var i :| 0 <= i < |ss| && ss[i] == s;
      assert ProvidedRows(id, ss)[i] == Provided(id, s);
    }
    forall p | p in ps
      ensures Carried(id, p) in CarriedOf(id, ps)
    {
      var i :| 0 <= i < |ps| && ps[i] == p;
      assert CarriedOf(id, ps)[i] == Carried(id, p);
    }
  }

  /** A merge can break the order: it appends what was stamped while the snapshot was read, behind
      what was updated since. */
  lemma {:induction false} MergeBreaksOrder(a: Region, b: Region)
    requires a.id != b.id && b.timeval < a.timeval
    ensures var t := Merge(EMPTY_TABLE, a, [], []);
            TableOrdered(t, a.timeval) && !TableOrdered(Merge(t, b, [], []), a.timeval)
  {
    hide Merge;
    MergeBare(EMPTY_TABLE, a);
    var t := Merge(EMPTY_TABLE, a, [], []);
    assert t.regions == [a];
    assert !t.Has(b.id);
    MergeBare(t, b);
    var u := Merge(t, b, [], []);
    assert u.regions == [a, b];
    assert RegionAge(u.regions[0]) > RegionAge(u.regions[1]);
  }

  lemma {:induction false} MergeBare(t: Table, r: Region)
    requires !t.Has(r.id)
    ensures Merge(t, r, [], []) == t.(regions := t.regions + [r])
  {
  }
}
