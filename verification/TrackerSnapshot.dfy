/** The tracker's own snapshot, sent in batches and read back region by region. */
module TrackerSnapshot {
  import opened Types
  import opened Lists
  import opened Package
  import opened ProductSpec
  import opened ReaderSpec
  import opened ReaderGrammar
  import opened ServerSpec
  import opened PackageRead
  import opened Transfer
  import opened TransferResult
  import opened TransferRuns
  import opened TrackerSpec
  import opened TrackerGroups

  /** Every record of the table is complete; of the first region only the id is looked at. */
  ghost predicate Complete(t: Table, now: nat) {
    && (forall i :: 0 <= i < |t.regions| ==> t.regions[i].id != "")
    && (forall i :: 0 < i < |t.regions| ==> t.regions[i].Wire().Stamp(now).Good())
    && (forall p :: p in t.services ==> p.service.Wire().Stamp(now).Good())
    && (forall c :: c in t.payloads ==> c.payload.id != "")
  }

  /** Each row of the table is in the group of its region, and the groups hold nothing else. */
  lemma {:induction false} RowsAreGrouped(t: Table)
    requires t.Valid()
    ensures forall p :: p in t.services <==> InServices(GroupsOf(t), p)
    ensures forall c :: c in t.payloads <==> InPayloads(GroupsOf(t), c)
  {
    hide DistinctKeys, ServicesOf, PayloadsOf, Table.RobinValid;
    var gs := GroupsOf(t);
    forall p | p in t.services
      ensures InServices(gs, p)
    {
      var i :| 0 <= i < |t.services| && t.services[i] == p;
      assert t.Has(p.region);
      var k :| 0 <= k < |t.regions| && RegionKey(t.regions[k]) == p.region;
      ServicesOfMembers(t.services, p.region);
      assert Provided(p.region, p.service) in t.services;
      assert gs[k].region.id == p.region && p.service in gs[k].services;
    }
    forall p | InServices(gs, p)
      ensures p in t.services
    {
      ServicesOfMembers(t.services, p.region);
      assert Provided(p.region, p.service) == p;
    }
    forall c | c in t.payloads
      ensures InPayloads(gs, c)
    {
      var i :| 0 <= i < |t.payloads| && t.payloads[i] == c;
      assert t.Has(c.region);
      var k :| 0 <= k < |t.regions| && RegionKey(t.regions[k]) == c.region;
      PayloadsOfMembers(t.payloads, c.region);
      assert Carried(c.region, c.payload) in t.payloads;
      assert gs[k].region.id == c.region && c.payload in gs[k].payloads;
    }
    forall c | InPayloads(gs, c)
      ensures c in t.payloads
    {
      PayloadsOfMembers(t.payloads, c.region);
      assert Carried(c.region, c.payload) == c;
    }
  }

  ghost predicate InServices(gs: seq<Group>, p: Provided) {
    exists k :: 0 <= k < |gs| && gs[k].region.id == p.region && p.service in gs[k].services
  }

  ghost predicate InPayloads(gs: seq<Group>, c: Carried) {
    exists k :: 0 <= k < |gs| && gs[k].region.id == c.region && c.payload in gs[k].payloads
  }

  lemma {:induction false} CompleteIffGood(t: Table, now: nat)
    requires t.Valid()
    ensures GoodGroups(GroupsOf(t), now) <==> t.regions != [] && Complete(t, now)
  {
    hide DistinctKeys, ServicesOf, PayloadsOf, Table.Valid, Region.Good, Service.Good;
    RowsAreGrouped(t);
    var gs := GroupsOf(t);
    if GoodGroups(gs, now) {
      forall p | p in t.services
        ensures p.service.Wire().Stamp(now).Good()
      {
        assert InServices(gs, p);
        var k :| 0 <= k < |gs| && gs[k].region.id == p.region && p.service in gs[k].services;
        assert GoodBody(gs[k], now);
      }
      forall c | c in t.payloads
        ensures c.payload.id != ""
      {
        assert InPayloads(gs, c);
        var k :| 0 <= k < |gs| && gs[k].region.id == c.region && c.payload in gs[k].payloads;
        assert GoodBody(gs[k], now);
      }
      forall i | 0 <= i < |t.regions|
        ensures t.regions[i].id != ""
        ensures i > 0 ==> t.regions[i].Wire().Stamp(now).Good()
      {
        assert GoodBody(gs[i], now) && gs[i].region == t.regions[i];
      }
    }
    if t.regions != [] && Complete(t, now) {
      forall i | 0 <= i < |gs|
        ensures GoodBody(gs[i], now)
      {
        GroupIsGood(t, i, now);
      }
    }
  }

  lemma {:induction false} GroupIsGood(t: Table, k: nat, now: nat)
    requires Complete(t, now) && k < |t.regions|
    ensures GoodBody(GroupsOf(t)[k], now)
  {
    hide ServicesOf, PayloadsOf, Region.Good, Service.Good;
    var g := GroupsOf(t)[k];
    ServicesOfMembers(t.services, g.region.id);
    PayloadsOfMembers(t.payloads, g.region.id);
    forall i | 0 <= i < |g.services|
      ensures g.services[i].Wire().Stamp(now).Good()
    {
      assert g.services[i] in g.services;
      assert Provided(g.region.id, g.services[i]) in t.services;
    }
    forall i | 0 <= i < |g.payloads|
      ensures g.payloads[i].id != ""
    {
      assert g.payloads[i] in g.payloads;
      assert Carried(g.region.id, g.payloads[i]) in t.payloads;
    }
  }

  /** A client can read the tracker's snapshot exactly when the table has a region, every record is
      complete and its builder takes the records. */
  lemma {:induction false} TrackerSnapshotReadable(t: Table, b: Builder, calls: seq<BuilderCall>, now: nat)
    requires t.Valid()
    ensures Succeeds(b, StartedReader(calls), Reply(GroupsOf(t)), now) <==>
            t.regions != [] && Complete(t, now) && Takes(b, calls, GroupsCalls(GroupsOf(t), now))
  {
    hide Table.Valid, Succeeds, Takes, GroupsCalls, GoodGroups, Complete;
    CompleteIffGood(t, now);
    PackageSucceedsIff(b, calls, GroupsOf(t), now);
  }

  /** A builder for many regions that takes every record. */
  const TAKE_ALL: Builder := (calls: seq<BuilderCall>, c: BuilderCall) => true

  lemma {:induction false} TakesAll(calls: seq<BuilderCall>, cs: seq<BuilderCall>)
    ensures Takes(TAKE_ALL, calls, cs)
    decreases |cs|
  {
    if cs != [] {
      TakesAll(calls + [cs[0]], cs[1..]);
    }
  }

  function FetchAll(t: Table, requester: string, capacity: nat, period: nat, now: nat): Setup {
    Setup(TAKE_ALL, [], requester, PackageOf(GroupsOf(t)), capacity, period, now)
  }

  function Flat(blocks: seq<seq<BuilderCall>>): seq<BuilderCall> {
    if blocks == [] then [] else blocks[0] + Flat(blocks[1..])
  }

  /** What a reader gets of region `k`: its record, its services and its payloads, each as the row has
      it, in list order, stamped by the reader. */
  ghost predicate RegionArrives(t: Table, k: nat, now: nat, cs: seq<BuilderCall>)
    requires k < |t.regions|
  {
    var r := t.regions[k];
    exists p, q, ss: seq<Service>, ps: seq<Payload> ::
      && ServicesAt(t.services, r.id, p, ss) && PayloadsAt(t.payloads, r.id, q, ps)
      && |cs| == 1 + |ss| + |ps|
      && cs[0] == CallRegion(Region(r.id, r.version, r.idc, r.bus, r.snapshot, now))
      && (forall i :: 0 <= i < |ss| ==> cs[1 + i] == CallService(r.id, Service(ss[i].name, ss[i].endpoint, now)))
      && (forall i :: 0 <= i < |ps| ==> cs[1 + |ss| + i] == CallPayload(r.id, Payload(ps[i].id, now)))
  }

  /** The whole table, region after region. */
  ghost predicate TableArrives(t: Table, now: nat, calls: seq<BuilderCall>) {
    exists blocks ::
      && Flat(blocks) == calls && |blocks| == |t.regions|
      && forall k :: 0 <= k < |blocks| ==> RegionArrives(t, k, now, blocks[k])
  }

  function GroupBlocks(gs: seq<Group>, now: nat): (bs: seq<seq<BuilderCall>>)
    ensures |bs| == |gs|
  {
    seq(|gs|, i requires 0 <= i < |gs| => GroupCalls(gs[i], now))
  }

  lemma {:induction false} BlocksFlat(gs: seq<Group>, now: nat)
    ensures Flat(GroupBlocks(gs, now)) == GroupsCalls(gs, now)
  {
    hide GroupCalls;
    if gs != [] {
      assert GroupBlocks(gs, now)[1..] == GroupBlocks(gs[1..], now);
      BlocksFlat(gs[1..], now);
    }
  }

  lemma {:induction false} GroupArrives(t: Table, k: nat, now: nat)
    requires k < |t.regions|
    ensures RegionArrives(t, k, now, GroupCalls(GroupsOf(t)[k], now))
  {
    hide ServicesAt, PayloadsAt, GroupsOf;
    GroupsAre(t);
    var g := GroupsOf(t)[k];
    var p :| ServicesAt(t.services, t.regions[k].id, p, g.services);
    var q :| PayloadsAt(t.payloads, t.regions[k].id, q, g.payloads);
  }

  lemma {:induction false} AllArrives(t: Table, now: nat)
    ensures TableArrives(t, now, GroupsCalls(GroupsOf(t), now))
  {
    hide RegionArrives, GroupCalls, Flat, GroupsCalls, GroupsOf;
    GroupsAre(t);
    var gs := GroupsOf(t);
    BlocksFlat(gs, now);
    forall k | 0 <= k < |gs|
      ensures RegionArrives(t, k, now, GroupBlocks(gs, now)[k])
    {
      GroupArrives(t, k, now);
    }
  }

  /** Whoever fetches the tracker's snapshot in batches of two or more gets, region after region in
      list order, the region's record and its services and payloads in list order, and nothing else. */
  lemma {:induction false} TrackerRoundTrip(t: Table, requester: string, capacity: nat, period: nat, now: nat,
                                            ws: map<string, Worker>, acts: seq<Act>, x: Sys)
    requires t.Valid() && t.regions != [] && Complete(t, now)
    requires var c := FetchAll(t, requester, capacity, period, now); Reaches(c, Init(c, ws), acts, x) && Final(x)
    ensures x.client.completed == if x.accepted && period >= 2 then [0] else [-1]
    ensures x.accepted && period >= 2 ==> TableArrives(t, now, x.client.calls)
    ensures x.accepted && period >= 2 ==> x.client.calls == GroupsCalls(GroupsOf(t), now)
  {
    hide Table.Valid, Succeeds, Takes, GroupsCalls, GoodGroups, Complete, Reaches, Init, Read, TableArrives;
    AllArrives(t, now);
    var c, gs := FetchAll(t, requester, capacity, period, now), GroupsOf(t);
    TakesAll([], GroupsCalls(gs, now));
    TrackerSnapshotReadable(t, TAKE_ALL, [], now);
    CompleteIffGood(t, now);
    PackageCalls(TAKE_ALL, [], gs, now);
    assert c.package[..|c.package|] == c.package;
    assert Whole(c, |c.package|) == Reply(gs);
    assert [] + GroupsCalls(gs, now) == GroupsCalls(gs, now);
    TransferOutcome(c, ws, acts, x);
  }
}
