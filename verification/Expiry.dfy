/** What the check timer takes out of the tracker table. */
module Expiry {
  import opened Types
  import opened Lists
  import opened Keyed
  import opened Sweep
  import opened TrackerSpec
  import opened TrackerInvariant

  function RegionAge(r: Region): nat { r.timeval }

  function ProvidedAge(p: Provided): nat { p.service.timeval }

  function CarriedAge(c: Carried): nat { c.payload.timeval }

  function Ids(rs: seq<Region>): (ids: seq<string>)
    ensures |ids| == |rs|
  {
    seq(|rs|, i requires 0 <= i < |rs| => rs[i].id)
  }

  function DropRegions(t: Table, ids: seq<string>): Table
    decreases |ids|
  {
    if ids == [] then t else DropRegions(DropRegion(t, ids[0]), ids[1..])
  }

  lemma {:induction false} FrontRow<V, K>(s: seq<V>, key: V -> K)
    requires s != [] && DistinctKeys(s, key)
    ensures Without(s, key, key(s[0])) == s[1..]
  {
    WithoutAt(s, key, 0);
    assert RemoveAt(s, 0) == s[1..];
  }

  lemma {:induction false} DropsFront(t: Table)
    requires t.regions != []
    ensures DropRegion(t, t.regions[0].id).regions == Without(t.regions, RegionKey, RegionKey(t.regions[0]))
  {
  }

  lemma {:induction false} IdsFront(rs: seq<Region>, n: nat)
    requires n <= |rs|
    ensures n == 0 ==> Ids(rs[..n]) == []
    ensures n > 0 ==>
              Ids(rs[..n]) != [] && Ids(rs[..n])[0] == rs[0].id && Ids(rs[..n])[1..] == Ids(rs[1..][..n - 1])
              && rs[1..][n - 1..] == rs[n..]
  {
  }

  /** The longest expired prefix of the regions goes, up to the limit, with all that it provides. */
  lemma {:induction false} ExpiredRegions(t: Table, limits: nat, now: nat)
    requires t.Valid()
    ensures var n := Min(limits, ExpiredPrefix(t.regions, RegionAge, now - REGION_TIMEOUT_MS));
            && ExpireRegions(t, limits, now) == DropRegions(t, Ids(t.regions[..n]))
            && ExpireRegions(t, limits, now).regions == t.regions[n..]
    decreases limits
  {
    hide Table.Valid, Without, DistinctKeys, DropRegion, Ids, ExpiredPrefix;
    ExpiredRound(t.regions, RegionAge, now - REGION_TIMEOUT_MS);
    var n := Min(limits, ExpiredPrefix(t.regions, RegionAge, now - REGION_TIMEOUT_MS));
    IdsFront(t.regions, n);
    if n > 0 {
      ValidDistinct(t);
      FrontRow(t.regions, RegionKey);
      DropsFront(t);
      DropRegionValid(t, t.regions[0].id);
      ExpiredRegions(DropRegion(t, t.regions[0].id), limits - 1, now);
    }
  }

  lemma {:induction false} ValidDistinct(t: Table)
    requires t.Valid()
    ensures DistinctKeys(t.regions, RegionKey)
    ensures DistinctKeys(t.services, ProvidedKey)
    ensures DistinctKeys(t.payloads, CarriedKey)
  {
  }

  lemma {:induction false} ExpiredServices(t: Table, limits: nat, now: nat)
    requires t.Valid()
    ensures var n, u :=
              Min(limits, ExpiredPrefix(t.services, ProvidedAge, now - SERVICE_TIMEOUT_MS)),
              ExpireServices(t, limits, now);
            u.services == t.services[n..] && u.regions == t.regions && u.payloads == t.payloads
    decreases limits
  {
    hide Table.Valid, Without, DistinctKeys, Drop, WithProviders;
    var n := Min(limits, ExpiredPrefix(t.services, ProvidedAge, now - SERVICE_TIMEOUT_MS));
    if n > 0 {
      var id, name := t.services[0].region, t.services[0].service.name;
      ValidDistinct(t);
      FrontRow(t.services, ProvidedKey);
      RemoveServiceValid(t, id, name);
      ExpiredServices(RemoveService(t, id, name), limits - 1, now);
      assert t.services[1..][n - 1..] == t.services[n..];
    }
  }

  lemma {:induction false} OwnFront(s: seq<Carried>)
    requires s != [] && DistinctKeys(s, CarriedKey)
    ensures Without(s, CarriedBoth, CarriedBoth(s[0])) == s[1..]
  {
    forall i, j | 0 <= i < j < |s|
      ensures CarriedBoth(s[i]) != CarriedBoth(s[j])
    {
      assert CarriedKey(s[i]) != CarriedKey(s[j]);
    }
    FrontRow(s, CarriedBoth);
  }

  lemma {:induction false} ExpiredPayloads(t: Table, limits: nat, now: nat)
    requires t.Valid()
    ensures var n := Min(limits, ExpiredPrefix(t.payloads, CarriedAge, now - PAYLOAD_TIMEOUT_MS));
            ExpirePayloads(t, limits, now) == t.(payloads := t.payloads[n..])
    decreases limits
  {
    hide Table.Valid, Without, DistinctKeys;
    var n := Min(limits, ExpiredPrefix(t.payloads, CarriedAge, now - PAYLOAD_TIMEOUT_MS));
    if n > 0 {
      var id, pid := t.payloads[0].region, t.payloads[0].payload.id;
      ValidDistinct(t);
      OwnFront(t.payloads);
      RemovePayloadValid(t, id, pid);
      ExpiredPayloads(RemovePayload(t, id, pid), limits - 1, now);
      assert t.payloads[1..][n - 1..] == t.payloads[n..];
    }
  }

  /** Dropping regions takes out exactly their rows. */
  lemma {:induction false} DroppedRows(t: Table, ids: seq<string>)
    ensures forall p :: p in DropRegions(t, ids).services <==> p in t.services && p.region !in ids
    ensures forall c :: c in DropRegions(t, ids).payloads <==> c in t.payloads && c.region !in ids
    decreases |ids|
  {
    hide Without, DropFromAll;
    if ids != [] {
      WithoutMembers(t.services, ProvidedRegion, ids[0]);
      WithoutMembers(t.payloads, CarriedRegion, ids[0]);
      DroppedRows(DropRegion(t, ids[0]), ids[1..]);
      assert forall x :: x in ids <==> x == ids[0] || x in ids[1..];
    }
  }

  lemma {:induction false} SortedWithout<V, K>(s: seq<V>, key: V -> K, k: K, age: V -> nat)
    requires Sorted(s, age)
    ensures Sorted(Without(s, key, k), age)
  {
    WithoutKeepsOrder(s, key, k);
    var p := Kept(s, key, k);
    forall i, j | 0 <= i < j < |p|
      ensures age(Without(s, key, k)[i]) <= age(Without(s, key, k)[j])
    {
      assert p[i] < p[j];
      assert age(s[p[i]]) <= age(s[p[j]]);
    }
  }

  lemma {:induction false} DroppedSorted(t: Table, ids: seq<string>)
    ensures Sorted(t.services, ProvidedAge) ==> Sorted(DropRegions(t, ids).services, ProvidedAge)
    ensures Sorted(t.payloads, CarriedAge) ==> Sorted(DropRegions(t, ids).payloads, CarriedAge)
    decreases |ids|
  {
    hide Without, DropFromAll, Sorted;
    if ids != [] {
      if Sorted(t.services, ProvidedAge) {
        SortedWithout(t.services, ProvidedRegion, ids[0], ProvidedAge);
      }
      if Sorted(t.payloads, CarriedAge) {
        SortedWithout(t.payloads, CarriedRegion, ids[0], CarriedAge);
      }
      DroppedSorted(DropRegion(t, ids[0]), ids[1..]);
    }
  }

  predicate OldRegion(r: Region, now: nat) {
    r.timeval + REGION_TIMEOUT_MS <= now
  }

  /** The regions that the timer takes out. */
  function Timeouted(t: Table, now: nat): (rs: seq<Region>)
    ensures forall r :: r in rs ==> r in t.regions && OldRegion(r, now)
  {
    t.regions[..Min(3, ExpiredPrefix(t.regions, RegionAge, now - REGION_TIMEOUT_MS))]
  }

  /** The timer takes out, from the front of each list and up to its limit, what has expired, after
      everything of an expired region went with it. */
  lemma {:induction false} TimerIsExact(t: Table, now: nat)
    requires t.Valid()
    ensures var u, gone := CheckTimer(t, now), Timeouted(t, now);
            var t1 := DropRegions(t, Ids(gone));
            && u.Valid()
            && u.regions == t.regions[|gone|..]
            && u.services == t1.services[Min(100, ExpiredPrefix(t1.services, ProvidedAge, now - SERVICE_TIMEOUT_MS))..]
            && u.payloads == t1.payloads[Min(100, ExpiredPrefix(t1.payloads, CarriedAge, now - PAYLOAD_TIMEOUT_MS))..]
  {
    hide Table.Valid, ExpireRegions, ExpireServices, ExpirePayloads, DropRegions;
    CheckTimerValid(t, now);
    ExpiredRegions(t, 3, now);
    ExpireRegionsValid(t, 3, now);
    var t1 := ExpireRegions(t, 3, now);
    ExpiredServices(t1, 100, now);
    ExpireServicesValid(t1, 100, now);
    ExpiredPayloads(ExpireServices(t1, 100, now), 100, now);
  }

  /** Nothing goes that is neither expired nor of an expired region. */
  lemma {:induction false} TimerTakesOnlyExpired(t: Table, now: nat)
    requires t.Valid()
    ensures var u, ids := CheckTimer(t, now), Ids(Timeouted(t, now));
            && (forall p :: p in t.services && p !in u.services ==>
                              p.service.timeval + SERVICE_TIMEOUT_MS <= now || p.region in ids)
            && (forall c :: c in t.payloads && c !in u.payloads ==>
                              c.payload.timeval + PAYLOAD_TIMEOUT_MS <= now || c.region in ids)
            && (forall p :: p in u.services ==> p in t.services && p.region !in ids)
            && (forall c :: c in u.payloads ==> c in t.payloads && c.region !in ids)
  {
    hide Table.Valid, CheckTimer, DropRegions, Timeouted, Ids;
    var u, ids := CheckTimer(t, now), Ids(Timeouted(t, now));
    var t1 := DropRegions(t, ids);
    TimerIsExact(t, now);
    DroppedRows(t, ids);
    PrefixGone(t1.services, Min(100, ExpiredPrefix(t1.services, ProvidedAge, now - SERVICE_TIMEOUT_MS)));
    PrefixGone(t1.payloads, Min(100, ExpiredPrefix(t1.payloads, CarriedAge, now - PAYLOAD_TIMEOUT_MS)));
  }

  lemma {:induction false} PrefixGone<V>(s: seq<V>, n: nat)
    requires n <= |s|
    ensures forall v :: v in s && v !in s[n..] ==> exists i :: 0 <= i < n && s[i] == v
    ensures forall v :: v in s[n..] ==> v in s
  {
    forall j | n <= j < |s|
      ensures s[j] in s[n..]
    {
      assert s[n..][j - n] == s[j];
    }
    forall v | v in s && v !in s[n..]
      ensures exists i :: 0 <= i < n && s[i] == v
    {
      var i :| 0 <= i < |s| && s[i] == v;
      assert i < n;
    }
  }

  lemma {:induction false} SortedTail<V>(s: seq<V>, age: V -> nat, limits: nat, expired: int)
    requires Sorted(s, age)
    ensures var n := Min(limits, ExpiredPrefix(s, age, expired));
            n < limits ==> forall v :: v in s[n..] ==> age(v) > expired
  {
    var n := Min(limits, ExpiredPrefix(s, age, expired));
    forall v | n < limits && v in s[n..]
      ensures age(v) > expired
    {
      var i :| 0 <= i < |s[n..]| && s[n..][i] == v;
      assert i > 0 ==> age(s[n]) <= age(s[n + i]);
    }
  }

  /** On sorted lists nothing expired remains, unless a limit was reached. */
  lemma {:induction false} TimerTakesAllExpired(t: Table, now: nat)
    requires t.Valid()
    ensures var u := CheckTimer(t, now);
            var t1 := DropRegions(t, Ids(Timeouted(t, now)));
            && (Sorted(t.regions, RegionAge) && |t.regions| - |u.regions| < 3 ==>
                  forall r :: r in u.regions ==> !OldRegion(r, now))
            && (Sorted(t.services, ProvidedAge) && |t1.services| - |u.services| < 100 ==>
                  forall p :: p in u.services ==> p.service.timeval + SERVICE_TIMEOUT_MS > now)
            && (Sorted(t.payloads, CarriedAge) && |t1.payloads| - |u.payloads| < 100 ==>
                  forall c :: c in u.payloads ==> c.payload.timeval + PAYLOAD_TIMEOUT_MS > now)
  {
    hide Table.Valid, CheckTimer, DropRegions, Ids, Sorted, ExpiredPrefix;
    TimerIsExact(t, now);
    var t1 := DropRegions(t, Ids(Timeouted(t, now)));
    DroppedSorted(t, Ids(Timeouted(t, now)));
    if Sorted(t.regions, RegionAge) {
      SortedTail(t.regions, RegionAge, 3, now - REGION_TIMEOUT_MS);
    }
    if Sorted(t.services, ProvidedAge) {
      SortedTail(t1.services, ProvidedAge, 100, now - SERVICE_TIMEOUT_MS);
    }
    if Sorted(t.payloads, CarriedAge) {
      SortedTail(t1.payloads, CarriedAge, 100, now - PAYLOAD_TIMEOUT_MS);
    }
  }
}
