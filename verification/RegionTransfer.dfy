/** The round trip of a region's table: built, sent in batches, read and rebuilt on the other side. */
module RegionTransfer {
  import opened Types
  import opened Lists
  import opened Publication
  import opened Package
  import opened ProductSpec
  import opened RegionSpec
  import opened ReaderSpec
  import opened ReaderGrammar
  import opened ServerSpec
  import opened PackageRead
  import opened Transfer
  import opened TransferResult
  import opened TransferRuns
  import TransferFaults

  /** The region product as a builder. */
  const PRODUCT_BUILDER: Builder := (calls: seq<BuilderCall>, c: BuilderCall) =>
    Accepts(BuildAll(EMPTY_PRODUCT, calls), c)

  function RestampServices(s: seq<Service>, now: nat): (r: seq<Service>)
    ensures |r| == |s|
  {
    seq(|s|, i requires 0 <= i < |s| => s[i].Wire().Stamp(now))
  }

  function RestampPayloads(s: seq<Payload>, now: nat): (r: seq<Payload>)
    ensures |r| == |s|
  {
    seq(|s|, i requires 0 <= i < |s| => Payload(s[i].id, now))
  }

  /** The group as the receiver holds it: the same records in the same order, with its own stamps. */
  function Rebuilt(g: Group, now: nat): ProductState {
    ProductState(g.region.Wire().Stamp(now), RestampServices(g.services, now), RestampPayloads(g.payloads, now))
  }

  lemma {:induction false} BuildAppend(p: ProductState, cs: seq<BuilderCall>, c: BuilderCall)
    ensures BuildAll(p, cs + [c]) == Build(BuildAll(p, cs), c)
  {
    assert (cs + [c])[..|cs|] == cs;
  }

  /** The product takes services with pairwise different names. */
  lemma {:induction false} TakesServices(calls: seq<BuilderCall>, id: string, s: seq<Service>, n: nat, now: nat)
    requires n <= |s|
    requires var p := BuildAll(EMPTY_PRODUCT, calls); p.region.id == id && p.services == RestampServices(s[..n], now)
    requires DistinctKeys(s, ServiceKey)
    ensures Takes(PRODUCT_BUILDER, calls, ServiceCalls(id, s[n..], now))
    ensures BuildAll(EMPTY_PRODUCT, calls + ServiceCalls(id, s[n..], now))
         == BuildAll(EMPTY_PRODUCT, calls).(services := RestampServices(s, now))
    decreases |s| - n
  {
    hide BuildAll;
    if n < |s| {
      var c := CallService(id, s[n].Wire().Stamp(now));
      assert ServiceCalls(id, s[n..], now) == [c] + ServiceCalls(id, s[n + 1..], now);
      BuildAppend(EMPTY_PRODUCT, calls, c);
      assert !HasKey(RestampServices(s[..n], now), ServiceKey, s[n].name) by {
        forall i | 0 <= i < n
          ensures ServiceKey(RestampServices(s[..n], now)[i]) != s[n].name
        {
          assert ServiceKey(s[i]) != ServiceKey(s[n]);
        }
      }
      assert RestampServices(s[..n], now) + [s[n].Wire().Stamp(now)] == RestampServices(s[..n + 1], now);
      TakesServices(calls + [c], id, s, n + 1, now);
      assert calls + [c] + ServiceCalls(id, s[n + 1..], now) == calls + ServiceCalls(id, s[n..], now);
      assert ServiceCalls(id, s[n..], now)[1..] == ServiceCalls(id, s[n + 1..], now);
    } else {
      assert s[..n] == s;
      assert calls + ServiceCalls(id, s[n..], now) == calls;
    }
  }

  lemma {:induction false} TakesPayloads(calls: seq<BuilderCall>, id: string, s: seq<Payload>, n: nat, now: nat)
    requires n <= |s|
    requires var p := BuildAll(EMPTY_PRODUCT, calls); p.region.id == id && p.payloads == RestampPayloads(s[..n], now)
    requires DistinctKeys(s, PayloadKey)
    ensures Takes(PRODUCT_BUILDER, calls, PayloadCalls(id, s[n..], now))
    ensures BuildAll(EMPTY_PRODUCT, calls + PayloadCalls(id, s[n..], now))
         == BuildAll(EMPTY_PRODUCT, calls).(payloads := RestampPayloads(s, now))
    decreases |s| - n
  {
    hide BuildAll;
    if n < |s| {
      var c := CallPayload(id, Payload(s[n].id, now));
      assert PayloadCalls(id, s[n..], now) == [c] + PayloadCalls(id, s[n + 1..], now);
      BuildAppend(EMPTY_PRODUCT, calls, c);
      assert !HasKey(RestampPayloads(s[..n], now), PayloadKey, s[n].id) by {
        forall i | 0 <= i < n
          ensures PayloadKey(RestampPayloads(s[..n], now)[i]) != s[n].id
        {
          assert PayloadKey(s[i]) != PayloadKey(s[n]);
        }
      }
      assert RestampPayloads(s[..n], now) + [Payload(s[n].id, now)] == RestampPayloads(s[..n + 1], now);
      TakesPayloads(calls + [c], id, s, n + 1, now);
      assert calls + [c] + PayloadCalls(id, s[n + 1..], now) == calls + PayloadCalls(id, s[n..], now);
      assert PayloadCalls(id, s[n..], now)[1..] == PayloadCalls(id, s[n + 1..], now);
    } else {
      assert s[..n] == s;
      assert calls + PayloadCalls(id, s[n..], now) == calls;
    }
  }

  /** An empty product takes the group of a region, and is then that region. */
  lemma {:induction false} ProductTakesGroup(g: Group, now: nat)
    requires DistinctKeys(g.services, ServiceKey) && DistinctKeys(g.payloads, PayloadKey)
    ensures Takes(PRODUCT_BUILDER, [], GroupCalls(g, now))
    ensures BuildAll(EMPTY_PRODUCT, GroupCalls(g, now)) == Rebuilt(g, now)
  {
    hide BuildAll, Takes, ServiceCalls, PayloadCalls, RestampServices, RestampPayloads;
    var c := CallRegion(g.region.Wire().Stamp(now));
    var ss, ps := ServiceCalls(g.region.id, g.services, now), PayloadCalls(g.region.id, g.payloads, now);
    BuildNothing(g.services, g.payloads, now);
    BuildAppend(EMPTY_PRODUCT, [], c);
    assert [] + [c] == [c];
    TakesServices([c], g.region.id, g.services, 0, now);
    TakesPayloads([c] + ss, g.region.id, g.payloads, 0, now);
    assert g.services[0..] == g.services && g.payloads[0..] == g.payloads;
    TakesAppend(PRODUCT_BUILDER, [c], ss, ps);
    TakesAppend(PRODUCT_BUILDER, [], [c], ss + ps);
    TakesOne(c);
    assert GroupCalls(g, now) == [c] + ss + ps;
  }

  lemma {:induction false} BuildNothing(ss: seq<Service>, ps: seq<Payload>, now: nat)
    ensures BuildAll(EMPTY_PRODUCT, []) == EMPTY_PRODUCT
    ensures RestampServices(ss[..0], now) == [] && RestampPayloads(ps[..0], now) == []
  {
  }

  lemma {:induction false} TakesOne(c: BuilderCall)
    requires c.CallRegion?
    ensures Takes(PRODUCT_BUILDER, [], [c])
  {
    assert BuildAll(EMPTY_PRODUCT, []) == EMPTY_PRODUCT;
    assert [c][1..] == [];
  }

  /** The setup in which a tracker fetches the snapshot of a region. */
  function Fetch(s: RegionState, requester: string, capacity: nat, period: nat, now: nat): Setup {
    Setup(PRODUCT_BUILDER, [], requester, PackageOf([Group(s.region, s.services, s.payloads)]), capacity, period, now)
  }

  lemma {:induction false} RegionReadable(s: RegionState, requester: string, capacity: nat, period: nat, now: nat)
    requires s.Valid() && s.region.id != "" && now > 0
    ensures var c := Fetch(s, requester, capacity, period, now);
            && Readable(c)
            && BuildAll(EMPTY_PRODUCT, WholeRead(c, |c.package|).calls)
               == Rebuilt(Group(s.region, s.services, s.payloads), now)
  {
    hide Succeeds, Read, BuildAll, Takes, GroupCalls, ServiceCalls, PayloadCalls, PackageOf, DistinctKeys, Rebuilt;
    var c := Fetch(s, requester, capacity, period, now);
    var g := Group(s.region, s.services, s.payloads);
    var gs := [g];
    assert GoodGroups(gs, now);
    OneGroup(g, now);
    ProductTakesGroup(g, now);
    PackageSucceedsIff(PRODUCT_BUILDER, [], gs, now);
    PackageCalls(PRODUCT_BUILDER, [], gs, now);
    assert c.package[..|c.package|] == c.package;
    assert Whole(c, |c.package|) == Reply(gs);
    assert [] + GroupsCalls(gs, now) == GroupsCalls(gs, now);
  }

  lemma {:induction false} OneGroup(g: Group, now: nat)
    ensures GroupsCalls([g], now) == GroupCalls(g, now)
  {
    assert GroupsCalls([g][1..], now) == [];
  }

  /** Whatever `addService` and `addPayload` put into a region's table, a tracker that fetches it in
      batches of two or more ends with the same region record, version, services and payloads in the
      same order; no record fails a check on the way, and nothing but a refused request fails. */
  lemma {:induction false} RegionRoundTrip(s: RegionState, requester: string, capacity: nat, period: nat, now: nat,
                                           ws: map<string, Worker>, acts: seq<Act>, t: Sys)
    requires s.Valid() && s.region.id != "" && now > 0
    requires var c := Fetch(s, requester, capacity, period, now); Reaches(c, Init(c, ws), acts, t) && Final(t)
    ensures t.client.completed == if t.accepted && period >= 2 then [0] else [-1]
    ensures t.accepted && period >= 2 ==>
              BuildAll(EMPTY_PRODUCT, t.client.calls) == Rebuilt(Group(s.region, s.services, s.payloads), now)
  {
    hide Readable, Reaches, Init, WholeRead, BuildAll, Rebuilt;
    RegionReadable(s, requester, capacity, period, now);
    TransferOutcome(Fetch(s, requester, capacity, period, now), ws, acts, t);
  }

  /** The same with sends that fail, timeouts and dropped workers: what a client reports as a success
      is the whole region. */
  lemma {:induction false} SuccessIsRegion(s: RegionState, requester: string, capacity: nat, period: nat, now: nat,
                                           ws: map<string, Worker>, faults: seq<TransferFaults.Fault>, t: Sys)
    requires s.Valid() && s.region.id != "" && now > 0
    requires var c := Fetch(s, requester, capacity, period, now); TransferFaults.Reaches(c, Init(c, ws), faults, t)
    ensures t.client.completed == [] || t.client.completed == [0] || t.client.completed == [-1]
    ensures t.client.completed == [0] ==>
              BuildAll(EMPTY_PRODUCT, t.client.calls) == Rebuilt(Group(s.region, s.services, s.payloads), now)
  {
    hide Readable, TransferFaults.Reaches, Init, WholeRead, BuildAll, Rebuilt, PackageOf, ItemsOf;
    var c := Fetch(s, requester, capacity, period, now);
    RegionReadable(s, requester, capacity, period, now);
    FetchedEndsOnce(s, requester, capacity, period, now);
    TransferFaults.SuccessIsWhole(c, ws, faults, t);
  }

  lemma {:induction false} FetchedEndsOnce(s: RegionState, requester: string, capacity: nat, period: nat, now: nat)
    ensures TransferFaults.EndsOnce(Fetch(s, requester, capacity, period, now).package)
  {
    hide PackageOf;
    var gs := [Group(s.region, s.services, s.payloads)];
    forall i | 0 <= i < |PackageOf(gs)| && PackageOf(gs)[i] == SnapshotEnd
      ensures i == |PackageOf(gs)| - 1
    {
      PackageEndsOnce(gs, i);
    }
  }

  /** The rebuilt region has the content of the table it was taken from. */
  lemma {:induction false} RebuiltContent(s: RegionState, now: nat)
    ensures var p := Rebuilt(Group(s.region, s.services, s.payloads), now);
            p.Content() == s.Content() && p.region.Wire() == s.region.Wire()
  {
    RestampContent(s.services, s.payloads, now);
  }

  /** Row by row: nothing but the stamps is the receiver's. */
  lemma {:induction false} RebuiltRows(g: Group, now: nat)
    ensures var p, r := Rebuilt(g, now), g.region;
            && p.region == Region(r.id, r.version, r.idc, r.bus, r.snapshot, now)
            && |p.services| == |g.services| && |p.payloads| == |g.payloads|
            && (forall i :: 0 <= i < |g.services| ==>
                              p.services[i] == Service(g.services[i].name, g.services[i].endpoint, now))
            && (forall i :: 0 <= i < |g.payloads| ==> p.payloads[i] == Payload(g.payloads[i].id, now))
  {
  }

  lemma {:induction false} RestampContent(ss: seq<Service>, ps: seq<Payload>, now: nat)
    ensures ServiceMap(RestampServices(ss, now)) == ServiceMap(ss)
    ensures PayloadSet(RestampPayloads(ps, now)) == PayloadSet(ps)
  {
    if ss != [] {
      RestampContent(ss[..|ss| - 1], ps, now);
      assert RestampServices(ss, now)[..|ss| - 1] == RestampServices(ss[..|ss| - 1], now);
    }
    forall k | k in PayloadSet(ps)
      ensures k in PayloadSet(RestampPayloads(ps, now))
    {
      var i :| 0 <= i < |ps| && ps[i].id == k;
      assert RestampPayloads(ps, now)[i].id == k;
    }
  }
}
