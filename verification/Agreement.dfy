/** The tracker's view of a synchronised region is what the region held when it sent the last
    publication that was processed. */
module Agreement {
  import opened Types
  import opened Lists
  import opened Publication
  import opened ProductSpec
  import opened RegionHistory
  import opened CatchUp
  import opened TrackerSpec
  import opened TrackerInvariant
  import opened TrackerModel
  import opened Expiry
  import opened Replication

  /** It shows no service of the region that the region lacks, and none at another endpoint. */
  ghost predicate ServicesWithin(m: Model, id: string, c: Content) {
    forall n :: ServiceId(id, n) in m.endpoints ==> n in c.services && m.endpoints[ServiceId(id, n)] == c.services[n]
  }

  ghost predicate ServicesAll(m: Model, id: string, c: Content) {
    forall n :: n in c.services ==> ServiceId(id, n) in m.endpoints
  }

  ghost predicate OnlyOwnPayloads(m: Model, id: string, c: Content) {
    forall p :: p in m.owner && m.owner[p] == id ==> p in c.payloads
  }

  /** Record and version are those of the region, and it has every service and payload that is shown;
      with `full`, every service that it has is shown. */
  ghost predicate View(m: Model, id: string, info: RegionMsg, e: Entry, full: bool) {
    && id in m.regions && m.regions[id].Wire() == info.(version := e.version)
    && ServicesWithin(m, id, e.after)
    && OnlyOwnPayloads(m, id, e.after)
    && (full ==> ServicesAll(m, id, e.after))
  }

  ghost predicate NeverHeld(r: Run, p: string) {
    forall i :: 0 <= i < |r.entries| ==> p !in r.entries[i].after.payloads
  }

  /** Neither this process nor one before it under the same id. */
  ghost predicate NeverHad(src: Source, p: string) {
    NeverHeld(src.run, p) && forall i :: 0 <= i < |src.past| ==> NeverHeld(src.past[i], p)
  }

  /** No other region has announced the payload. */
  ghost predicate Exclusive(sources: map<string, Source>, id: string, p: string) {
    forall x :: x in sources && x != id ==> NeverHad(sources[x], p)
  }

  /** Every payload that no other region announces is routed to the region. */
  ghost predicate Complete(sources: map<string, Source>, m: Model, id: string, c: Content) {
    forall p :: p in c.payloads && Exclusive(sources, id, p) ==> p in m.owner && m.owner[p] == id
  }

  /** `full` says that no single service or payload has expired. */
  ghost predicate Agreed(y: System, id: string, full: bool) {
    && id in y.sources && 0 < y.sources[id].cursor <= |y.sources[id].run.entries| && y.sources[id].run.states != []
    && View(Abs(y.table), id, y.sources[id].Info(), y.sources[id].Last(), full)
    && (full ==> Complete(y.sources, Abs(y.table), id, y.sources[id].Last().after))
  }

  /** A region without an id provides nothing. */
  ghost predicate Bare(m: Model) {
    (forall k :: k in m.endpoints ==> k.region != "") && (forall p :: p in m.owner ==> m.owner[p] != "")
  }

  ghost predicate AgreeInv(y: System, full: bool) {
    Bare(Abs(y.table)) && forall id :: y.table.Has(id) && id != "" ==> Agreed(y, id, full)
  }

  // Publications on the model

  /** A publication of the region itself moves its view to the next entry. */
  lemma {:induction false} OwnPublication(m: Model, id: string, info: RegionMsg, prev: Entry, e: Entry, now: nat,
                                          full: bool)
    requires View(m, id, info, prev, full) && Follows(prev, e, info) && info.id == id && !e.pub.PubRmRegion?
    ensures View(Meaning(m, OpOf(id, e.pub, now)), id, info, e, full)
  {
    assert e.version == prev.version ==> Echo(e.pub, info, e.version, e.after);
    match e.pub
    case PubRegion(r) =>
    case PubService(v, s) =>
    case PubRmService(v, n) =>
    case PubPayload(v, u) =>
    case PubRmPayload(v, u) =>
  }

  lemma {:induction false} OwnComplete(sources: map<string, Source>, m: Model, id: string, info: RegionMsg,
                                       prev: Entry, e: Entry, now: nat)
    requires id in m.regions && Complete(sources, m, id, prev.after) && Follows(prev, e, info) && !e.pub.PubRmRegion?
    requires e.pub.PubRegion? ==> e.version == prev.version
    ensures Complete(sources, Meaning(m, OpOf(id, e.pub, now)), id, e.after)
  {
    hide Exclusive;
    assert e.version == prev.version ==> Echo(e.pub, info, e.version, e.after);
    match e.pub
    case PubRegion(r) =>
    case PubService(v, s) =>
    case PubRmService(v, n) =>
    case PubPayload(v, u) =>
    case PubRmPayload(v, u) =>
  }

  /** A publication of one region leaves the view of another alone, except that it may take a payload
      over, which is then not exclusive. */
  lemma {:induction false} OtherPublication(m: Model, id: string, p: Pub, now: nat, x: string, info: RegionMsg,
                                            e: Entry, full: bool)
    requires View(m, x, info, e, full) && x != id && (p.PubRegion? ==> p.region.id == id)
    ensures View(Meaning(m, OpOf(id, p, now)), x, info, e, full)
  {
    match p
    case PubRegion(r) =>
    case PubRmRegion =>
    case PubService(v, s) =>
    case PubRmService(v, n) =>
    case PubPayload(v, u) =>
    case PubRmPayload(v, u) =>
  }

  lemma {:induction false} OtherComplete(sources: map<string, Source>, m: Model, id: string, k: nat, p: Pub, now: nat,
                                         x: string, c: Content)
    requires Complete(sources, m, x, c) && x != id && id in sources
    requires k < |sources[id].run.entries| && (p.PubPayload? ==> p.uuid in sources[id].run.entries[k].after.payloads)
    ensures Complete(sources, Meaning(m, OpOf(id, p, now)), x, c)
  {
    hide Exclusive;
    if p.PubPayload? {
      NotExclusive(sources, id, k, p.uuid, x);
    }
  }

  lemma {:induction false} NotExclusive(sources: map<string, Source>, id: string, k: nat, p: string, x: string)
    requires id in sources && x != id && k < |sources[id].run.entries| && p in sources[id].run.entries[k].after.payloads
    ensures !Exclusive(sources, x, p)
  {
    assert !NeverHad(sources[id], p);
  }

  lemma {:induction false} PubNames(es: seq<Entry>, info: RegionMsg, i: nat)
    requires Chained(es, info) && i < |es|
    ensures es[i].pub.PubRegion? ==> es[i].pub.region.id == info.id
    ensures es[i].pub.PubPayload? ==> es[i].pub.uuid in es[i].after.payloads
    ensures i > 0 && es[i].pub.PubRegion? ==> es[i].version == es[i - 1].version
  {
    if i > 0 {
      assert Follows(es[i - 1], es[i], info);
    }
  }

  lemma {:induction false} StaysBare(m: Model, id: string, p: Pub, now: nat)
    requires Bare(m) && id != ""
    ensures Bare(Meaning(m, OpOf(id, p, now)))
  {
    match p
    case PubRegion(r) =>
    case PubRmRegion =>
    case PubService(v, s) =>
    case PubRmService(v, n) =>
    case PubPayload(v, u) =>
    case PubRmPayload(v, u) =>
  }

  lemma {:induction false} MergedBare(m: Model, p: ProductState)
    requires Bare(m) && (p.region.id != "" || (p.services == [] && p.payloads == []))
    ensures Bare(Merged(m, p.region, p.services, p.payloads))
  {
    hide WithServices, WithPayloads;
    var id := p.region.id;
    var m1 := m.(regions := m.regions[id := p.region]);
    ServicesMerged(m1, id, p.services);
    PayloadsMerged(WithServices(m1, id, p.services), id, p.payloads);
  }

  // What the other steps do to an agreed region

  /** Whatever was announced under an id before is still remembered. */
  ghost predicate Remembers(a: Source, b: Source) {
    (a.run.entries <= b.run.entries && a.past == b.past) || b.past == a.past + [a.run]
  }

  lemma {:induction false} RemembersAll(a: Source, b: Source, p: string)
    requires Remembers(a, b) && NeverHad(b, p)
    ensures NeverHad(a, p)
  {
    hide NeverHeld;
    if b.past == a.past + [a.run] {
      assert b.past[|a.past|] == a.run;
      assert forall i :: 0 <= i < |a.past| ==> b.past[i] == a.past[i];
    } else {
      PrefixNeverHeld(a.run, b.run, p);
    }
  }

  lemma {:induction false} PrefixNeverHeld(a: Run, b: Run, p: string)
    requires a.entries <= b.entries && NeverHeld(b, p)
    ensures NeverHeld(a, p)
  {
  }

  lemma {:induction false} GrowsExclusive(s1: map<string, Source>, s2: map<string, Source>, id: string, p: string)
    requires forall x :: x in s1 ==> x in s2 && Remembers(s1[x], s2[x])
    requires Exclusive(s2, id, p)
    ensures Exclusive(s1, id, p)
  {
    hide NeverHad, Remembers;
    forall x | x in s1 && x != id
      ensures NeverHad(s1[x], p)
    {
      RemembersAll(s1[x], s2[x], p);
    }
  }

  /** Regions may go on, and processes start, without the tracker noticing. */
  lemma {:induction false} StaysAgreed(y: System, z: System, id: string, full: bool)
    requires Agreed(y, id, full) && Abs(z.table) == Abs(y.table)
    requires forall x :: x in y.sources ==> x in z.sources && Remembers(y.sources[x], z.sources[x])
    requires y.sources[id].run.entries <= z.sources[id].run.entries
    requires z.sources[id].cursor == y.sources[id].cursor
    requires z.sources[id].run.states != [] && z.sources[id].Info() == y.sources[id].Info()
    ensures Agreed(z, id, full)
  {
    hide View, Exclusive, Abs, Remembers;
    forall p | Exclusive(z.sources, id, p)
      ensures Exclusive(y.sources, id, p)
    {
      GrowsExclusive(y.sources, z.sources, id, p);
    }
  }

  lemma {:induction false} RemovedOther(m: Model, id: string, x: string, info: RegionMsg, e: Entry, full: bool)
    requires View(m, x, info, e, full) && x != id
    ensures View(WithoutRegion(m, id), x, info, e, full)
  {
  }

  lemma {:induction false} RemovedComplete(sources: map<string, Source>, m: Model, id: string, x: string, c: Content)
    requires Complete(sources, m, x, c) && x != id
    ensures Complete(sources, WithoutRegion(m, id), x, c)
  {
    hide Exclusive;
  }

  lemma {:induction false} DroppedAgreed(sources: map<string, Source>, t: Table, ids: seq<string>, x: string,
                                         info: RegionMsg, e: Entry, full: bool)
    requires t.Valid() && DropRegions(t, ids).Has(x)
    requires View(Abs(t), x, info, e, full) && (full ==> Complete(sources, Abs(t), x, e.after))
    ensures View(Abs(DropRegions(t, ids)), x, info, e, full)
    ensures full ==> Complete(sources, Abs(DropRegions(t, ids)), x, e.after)
    decreases |ids|
  {
    hide View, Complete, Abs, Table.Valid, DropRegion, WithoutRegion, Table.Has;
    if ids != [] {
      DropRegionValid(t, ids[0]);
      AbsDropRegion(t, ids[0]);
      StillThere(DropRegion(t, ids[0]), ids[1..], x);
      RemovedOther(Abs(t), ids[0], x, info, e, full);
      if full {
        RemovedComplete(sources, Abs(t), ids[0], x, e.after);
      }
      DroppedAgreed(sources, DropRegion(t, ids[0]), ids[1..], x, info, e, full);
    }
  }

  lemma {:induction false} StillThere(t: Table, ids: seq<string>, x: string)
    requires t.Valid() && DropRegions(t, ids).Has(x)
    ensures t.Has(x)
    decreases |ids|
  {
    hide Table.Valid, DropRegion, Table.Has;
    if ids != [] {
      DropRegionValid(t, ids[0]);
      StillThere(DropRegion(t, ids[0]), ids[1..], x);
    }
  }

  // The merge

  lemma {:induction false} LiveModel(t: Table)
    requires t.Valid()
    ensures forall k :: k in Abs(t).endpoints ==> k.region in Abs(t).regions
    ensures forall p :: p in Abs(t).owner ==> Abs(t).owner[p] in Abs(t).regions
  {
    hide Keyed.ByKey;
    Keyed.ByKeyRows(t.services, ProvidedKey, ProvidedEndPoint);
    Keyed.ByKeyRows(t.payloads, CarriedKey, CarriedRegion);
    AbsRegions(t);
    forall k | k in Abs(t).endpoints
      ensures k.region in Abs(t).regions
    {
      assert HasKey(t.services, ProvidedKey, k);
      var i :| 0 <= i < |t.services| && ProvidedKey(t.services[i]) == k;
      assert t.Has(t.services[i].region);
    }
    forall p | p in Abs(t).owner
      ensures Abs(t).owner[p] in Abs(t).regions
    {
      assert HasKey(t.payloads, CarriedKey, p);
      var i :| 0 <= i < |t.payloads| && CarriedKey(t.payloads[i]) == p;
      assert t.Has(t.payloads[i].region);
    }
  }

  lemma {:induction false} ServicesMerged(m: Model, id: string, ss: seq<Service>)
    ensures var w := WithServices(m, id, ss);
            && w.regions == m.regions && w.owner == m.owner
            && (forall k :: k in w.endpoints <==> (k.region == id && k.name in ServiceMap(ss)) || k in m.endpoints)
            && (forall k :: k in w.endpoints ==>
                              w.endpoints[k] ==
                              if k.region == id && k.name in ServiceMap(ss) then ServiceMap(ss)[k.name]
                              else m.endpoints[k])
  {
    if ss != [] {
      ServicesMerged(m, id, ss[..|ss| - 1]);
    }
  }

  lemma {:induction false} PayloadsMerged(m: Model, id: string, ps: seq<Payload>)
    ensures var w := WithPayloads(m, id, ps);
            && w.regions == m.regions && w.endpoints == m.endpoints
            && (forall p :: p in w.owner <==> p in PayloadSet(ps) || p in m.owner)
            && (forall p :: p in w.owner ==> w.owner[p] == if p in PayloadSet(ps) then id else m.owner[p])
  {
    if ps != [] {
      PayloadsMerged(m, id, ps[..|ps| - 1]);
      assert PayloadSet(ps) == PayloadSet(ps[..|ps| - 1]) + {ps[|ps| - 1].id} by {
        assert ps == ps[..|ps| - 1] + [ps[|ps| - 1]];
      }
    }
  }

  /** A merged region is seen exactly as the product has it. */
  lemma {:induction false} MergedView(m: Model, p: ProductState, info: RegionMsg, e: Entry, full: bool)
    requires p.region.id !in m.regions && Agrees(p, info, e.version, e.after)
    requires forall k :: k in m.endpoints ==> k.region in m.regions
    requires forall q :: q in m.owner ==> m.owner[q] in m.regions
    ensures var w := Merged(m, p.region, p.services, p.payloads);
            && View(w, p.region.id, info, e, full)
            && forall q :: q in e.after.payloads ==> q in w.owner && w.owner[q] == p.region.id
  {
    hide ServiceMap, PayloadSet, WithServices, WithPayloads;
    var id := p.region.id;
    var m1 := m.(regions := m.regions[id := p.region]);
    ServicesMerged(m1, id, p.services);
    PayloadsMerged(WithServices(m1, id, p.services), id, p.payloads);
  }

  lemma {:induction false} MergedOther(m: Model, p: ProductState, x: string, info: RegionMsg, e: Entry, full: bool)
    requires View(m, x, info, e, full) && x != p.region.id
    ensures View(Merged(m, p.region, p.services, p.payloads), x, info, e, full)
  {
    hide WithServices, WithPayloads;
    var id := p.region.id;
    var m1 := m.(regions := m.regions[id := p.region]);
    ServicesMerged(m1, id, p.services);
    PayloadsMerged(WithServices(m1, id, p.services), id, p.payloads);
  }

  lemma {:induction false} MergedComplete(sources: map<string, Source>, m: Model, p: ProductState, k: nat, x: string,
                                          c: Content)
    requires Complete(sources, m, x, c) && x != p.region.id && p.region.id in sources
    requires k < |sources[p.region.id].run.entries|
    requires p.Content().payloads == sources[p.region.id].run.entries[k].after.payloads
    ensures Complete(sources, Merged(m, p.region, p.services, p.payloads), x, c)
  {
    hide WithServices, WithPayloads, Exclusive;
    var id := p.region.id;
    var m1 := m.(regions := m.regions[id := p.region]);
    ServicesMerged(m1, id, p.services);
    PayloadsMerged(WithServices(m1, id, p.services), id, p.payloads);
    forall q | q in p.Content().payloads
      ensures !Exclusive(sources, x, q)
    {
      NotExclusive(sources, id, k, q, x);
    }
  }

  /** A region without an id takes nothing from the others. */
  lemma {:induction false} NamelessMerge(m: Model, r: Region, x: string, info: RegionMsg, e: Entry, full: bool)
    requires View(m, x, info, e, full) && x != r.id
    ensures var w := Merged(m, r, [], []);
            View(w, x, info, e, full) && w.owner == m.owner
  {
    MergedOther(m, ProductState(r, [], []), x, info, e, full);
  }

  // Expiry

  lemma {:induction false} ExpiredModel(t: Table, now: nat)
    requires t.Valid()
    ensures var m, w := Abs(t), Abs(CheckTimer(t, now));
            && (forall id :: id in w.regions ==> id in m.regions && w.regions[id] == m.regions[id])
            && (forall k :: k in w.endpoints ==> k in m.endpoints && w.endpoints[k] == m.endpoints[k])
            && (forall p :: p in w.owner ==> p in m.owner && w.owner[p] == m.owner[p])
  {
    hide Table.Valid, CheckTimer, Ids;
    var u := CheckTimer(t, now);
    CheckTimerValid(t, now);
    TimerIsExact(t, now);
    TimerTakesOnlyExpired(t, now);
    ValidDistinct(t);
    ValidDistinct(u);
    SuffixRows(t.regions, u.regions, |Timeouted(t, now)|);
    SubMap(t.regions, u.regions, RegionKey, Itself);
    SubMap(t.services, u.services, ProvidedKey, ProvidedEndPoint);
    SubMap(t.payloads, u.payloads, CarriedKey, CarriedRegion);
  }

  lemma {:induction false} SuffixRows(s: seq<Region>, u: seq<Region>, n: nat)
    requires n <= |s| && u == s[n..]
    ensures forall r :: r in u ==> r in s
  {
  }

  lemma {:induction false} SubMap<V, K, W>(s: seq<V>, u: seq<V>, key: V -> K, val: V -> W)
    requires DistinctKeys(s, key) && DistinctKeys(u, key) && forall v :: v in u ==> v in s
    ensures forall k :: k in Keyed.ByKey(u, key, val) ==> k in Keyed.ByKey(s, key, val)
    ensures forall k :: k in Keyed.ByKey(u, key, val) ==> Keyed.ByKey(u, key, val)[k] == Keyed.ByKey(s, key, val)[k]
  {
    hide Keyed.ByKey, DistinctKeys;
    Keyed.ByKeyRows(s, key, val);
    Keyed.ByKeyRows(u, key, val);
    forall k | k in Keyed.ByKey(u, key, val)
      ensures k in Keyed.ByKey(s, key, val) && Keyed.ByKey(u, key, val)[k] == Keyed.ByKey(s, key, val)[k]
    {
      assert HasKey(u, key, k);
      var i :| 0 <= i < |u| && key(u[i]) == k;
      assert u[i] in s;
      var j :| 0 <= j < |s| && s[j] == u[i];
      assert key(s[j]) == k && val(s[j]) == val(u[i]);
    }
  }

  /** Expiry hides what is there, and shows nothing else. */
  lemma {:induction false} ExpiredView(t: Table, now: nat, x: string, info: RegionMsg, e: Entry)
    requires t.Valid() && CheckTimer(t, now).Valid() && CheckTimer(t, now).Has(x)
    requires View(Abs(t), x, info, e, false)
    ensures View(Abs(CheckTimer(t, now)), x, info, e, false)
  {
    hide Table.Valid, Table.Has, CheckTimer, Abs;
    ExpiredModel(t, now);
    AbsRegions(CheckTimer(t, now));
  }

  lemma {:induction false} ExpiredBare(t: Table, now: nat)
    requires t.Valid() && Bare(Abs(t))
    ensures Bare(Abs(CheckTimer(t, now)))
  {
    hide Table.Valid, CheckTimer, Abs;
    ExpiredModel(t, now);
  }
}
