/** Which region a payload is routed to when several announce it: the last to announce it that has not
    given it up since. */
module Ownership {
  import opened Types
  import opened Publication
  import opened ProductSpec
  import opened RegionHistory
  import opened SubCacher
  import opened TrackerSpec
  import opened TrackerInvariant
  import opened TrackerModel
  import opened Expiry
  import RegionSpec
  import opened Replication
  import opened Agreement
  import opened AgreementRuns

  ghost predicate Owns(y: System, id: string, p: string) {
    p in Abs(y.table).owner && Abs(y.table).owner[p] == id
  }

  /** The publication that is next of a region. */
  function NextPub(y: System, id: string): Pub
    requires id in y.sources && y.sources[id].cursor < |y.sources[id].run.entries|
  {
    y.sources[id].run.entries[y.sources[id].cursor].pub
  }

  /** The step makes the payload the region's: it takes its announcement directly, or finishes the
      synchronisation of the region while it holds the payload. */
  ghost predicate Claims(y: System, s: Step, id: string, p: string)
    requires Enabled(y, s)
  {
    match s
    case Deliver(x, _) => x == id && y.table.Has(x) && NextPub(y, x).PubPayload? && NextPub(y, x).uuid == p
    case SyncDone(x, k, now) =>
      && x == id && ReplaySucceeds(y, x, k, now)
      && 0 < y.sources[x].cursor <= |y.sources[x].run.entries| && p in y.sources[x].Last().after.payloads
    case _ => false
  }

  /** The step takes the payload from the region: the region removes it or withdraws, its record has
      expired, or another region's claim is taken. */
  ghost predicate Loses(y: System, s: Step, id: string, p: string)
    requires Enabled(y, s)
  {
    match s
    case Deliver(x, _) =>
      if x == id then
        && y.table.Has(x)
        && (NextPub(y, x).PubRmRegion? || (NextPub(y, x).PubRmPayload? && NextPub(y, x).uuid == p))
      else Claims(y, s, x, p)
    case SyncDone(x, _, _) => x != id && Claims(y, s, x, p)
    case Timer(now) => id in Ids(Timeouted(y.table, now))
    case _ => false
  }

  lemma {:induction false} DeliverOwns(y: System, x: string, now: nat, id: string, p: string)
    requires IntakeInv(y) && Enabled(y, Deliver(x, now))
    ensures var s := Deliver(x, now);
            Owns(Perform(y, s), id, p) <==> Claims(y, s, id, p) || (Owns(y, id, p) && !Loses(y, s, id, p))
  {
    hide Table.Valid, Table.Has, SourceOk, Queued, Abs, Do, OpOf, Intake, RegionSpec.Enabled, NoWrap, Source.Gone,
      Meaning;
    var q := NextPub(y, x);
    AbsRegions(y.table);
    if y.table.Has(x) {
      OpIsNoMerge(x, q, now);
      TableRefinesModel(y.table, OpOf(x, q, now));
      PubOwns(Abs(y.table), x, q, now, id, p);
    }
  }

  lemma {:induction false} PubOwns(m: Model, x: string, q: Pub, now: nat, id: string, p: string)
    requires x in m.regions
    ensures var w := Meaning(m, OpOf(x, q, now));
            (p in w.owner && w.owner[p] == id) <==>
            || (x == id && q.PubPayload? && q.uuid == p)
            || (&& p in m.owner && m.owner[p] == id
                && !(x == id && (q.PubRmRegion? || (q.PubRmPayload? && q.uuid == p)))
                && !(x != id && q.PubPayload? && q.uuid == p))
  {
    match q
    case PubRegion(r) =>
    case PubRmRegion =>
    case PubService(v, s) =>
    case PubRmService(v, n) =>
    case PubPayload(v, u) =>
    case PubRmPayload(v, u) =>
  }

  lemma {:induction false} SyncOwns(y: System, x: string, k: nat, now: nat, id: string, p: string)
    requires IntakeInv(y) && Enabled(y, SyncDone(x, k, now))
    ensures var s := SyncDone(x, k, now);
            Owns(Perform(y, s), id, p) <==> Claims(y, s, id, p) || (Owns(y, id, p) && !Loses(y, s, id, p))
  {
    hide Table.Valid, Table.Has, SourceOk, Queued, Abs, Do, CaughtUp, Product, RegionSpec.Enabled, NoWrap, WithServices,
      WithPayloads, Replay, ProductState.Content;
    if ReplaySucceeds(y, x, k, now) {
      var src, q := y.sources[x], y.syncing[x];
      var pr := CaughtUp(src, q, x, k, now);
      CaughtUpAgrees(src, q, x, k, now);
      CaughtUpId(src, q, x, k, now);
      TableRefinesModel(y.table, OpMerge(pr.region, pr.services, pr.payloads));
      AbsRegions(y.table);
      ProductOwns(Abs(y.table), pr, p);
    }
  }

  lemma {:induction false} ProductOwns(m: Model, pr: ProductState, p: string)
    requires pr.region.id !in m.regions
    ensures var w := Merged(m, pr.region, pr.services, pr.payloads);
            && (p in w.owner <==> p in pr.Content().payloads || p in m.owner)
            && (p in w.owner ==> w.owner[p] == if p in pr.Content().payloads then pr.region.id else m.owner[p])
  {
    hide WithServices, WithPayloads;
    var m1 := m.(regions := m.regions[pr.region.id := pr.region]);
    ServicesMerged(m1, pr.region.id, pr.services);
    PayloadsMerged(WithServices(m1, pr.region.id, pr.services), pr.region.id, pr.payloads);
  }

  lemma {:induction false} DroppedOwner(t: Table, ids: seq<string>)
    requires t.Valid()
    ensures var m, w := Abs(t), Abs(DropRegions(t, ids));
            && (forall p :: p in w.owner <==> p in m.owner && m.owner[p] !in ids)
            && (forall p :: p in w.owner ==> w.owner[p] == m.owner[p])
    decreases |ids|
  {
    hide Table.Valid, DropRegion, Abs;
    if ids != [] {
      DropRegionValid(t, ids[0]);
      AbsDropRegion(t, ids[0]);
      DroppedOwner(DropRegion(t, ids[0]), ids[1..]);
    }
  }

  lemma {:induction false} UnstartedOwns(y: System, x: string)
    requires IntakeInv(y) && x in y.syncing
    ensures Abs(Unstarted(y, x).table).owner == Abs(y.table).owner
  {
    hide Unstarted, Table.Has, Table.Valid, FromZero, Abs, SourceOk, Queued, Source.Gone;
    UnstartedOutcome(y, x);
    SamePayloads(y.table, Unstarted(y, x).table);
  }

  lemma {:induction false} SamePayloads(t: Table, u: Table)
    requires t.payloads == u.payloads
    ensures Abs(t).owner == Abs(u).owner
  {
  }

  /** Any step: the payload is the region's afterwards exactly if the step claims it, or it was the
      region's and the step does not take it. */
  lemma {:induction false} StepOwns(y: System, s: Step, id: string, p: string)
    requires IntakeInv(y) && Enabled(y, s) && (s.Timer? ==> Calm(y.table, s.now))
    ensures Owns(Perform(y, s), id, p) <==> Claims(y, s, id, p) || (Owns(y, id, p) && !Loses(y, s, id, p))
  {
    hide Table.Valid, Table.Has, SourceOk, Queued, Abs, RegionSpec.Enabled, NoWrap, Calm, Timeouted, Delivered, Synced,
      Unstarted, CheckTimer, RobinRoute, DropRegions, Source.Gone, ReplaySucceeds;
    match s
    case Deliver(x, now) => DeliverOwns(y, x, now, id, p);
    case SyncDone(x, k, now) => SyncOwns(y, x, k, now, id, p);
    case SyncUnstarted(x) => UnstartedOwns(y, x);
    case Route(name) => RobinKeepsLists(y.table, name);
    case Timer(now) =>
      CalmTimer(y.table, now);
      DroppedOwner(y.table, Ids(Timeouted(y.table, now)));
    case _ =>
  }

  /** No step takes the payload from the region. */
  ghost predicate NeverLost(y: System, ss: seq<Step>, id: string, p: string)
    decreases |ss|
  {
    || ss == []
    || (Enabled(y, ss[0]) && !Loses(y, ss[0], id, p) && NeverLost(Perform(y, ss[0]), ss[1..], id, p))
  }

  /** Some step claims the payload for the region, and none after it takes it away. */
  ghost predicate LastClaim(y: System, ss: seq<Step>, id: string, p: string)
    decreases |ss|
  {
    && ss != [] && Enabled(y, ss[0])
    && (|| (Claims(y, ss[0], id, p) && NeverLost(Perform(y, ss[0]), ss[1..], id, p))
        || LastClaim(Perform(y, ss[0]), ss[1..], id, p))
  }

  lemma {:induction false} RunOwns(y: System, ss: seq<Step>, z: System, id: string, p: string)
    requires IntakeInv(y) && Reaches(y, ss, z) && CalmRun(y, ss)
    ensures Owns(z, id, p) <==> LastClaim(y, ss, id, p) || (Owns(y, id, p) && NeverLost(y, ss, id, p))
    decreases |ss|
  {
    hide IntakeInv, Perform, Enabled, Calm, Owns, Claims, Loses;
    if ss != [] {
      PerformIntake(y, ss[0]);
      StepOwns(y, ss[0], id, p);
      RunOwns(Perform(y, ss[0]), ss[1..], z, id, p);
    }
  }

  /** Whoever announces a payload, in every state reached without expiry of single services or
      payloads it belongs to the region of the last claim that still stands, and is routed there. */
  lemma {:induction false} LastClaimOwns(capacity: nat, ss: seq<Step>, z: System, id: string, p: string)
    requires Reaches(StartOf(capacity), ss, z) && CalmRun(StartOf(capacity), ss)
    ensures Owns(z, id, p) <==> LastClaim(StartOf(capacity), ss, id, p)
    ensures LastClaim(StartOf(capacity), ss, id, p) ==>
              id in z.sources && z.sources[id].run.states != [] &&
              RoutePayload(Abs(z.table), p) == Some(z.sources[id].Info().bus)
  {
    hide Reaches, CalmRun, LastClaim, NeverLost, IntakeInv, AgreeInv, Table.Has, Agreed;
    StartInv(capacity, true);
    RunOwns(StartOf(capacity), ss, z, id, p);
    if Owns(z, id, p) {
      OwnerRoutes(capacity, ss, z, id, p);
    }
  }

  lemma {:induction false} OwnerRoutes(capacity: nat, ss: seq<Step>, z: System, id: string, p: string)
    requires Reaches(StartOf(capacity), ss, z) && Owns(z, id, p)
    ensures id in z.sources && z.sources[id].run.states != []
    ensures RoutePayload(Abs(z.table), p) == Some(z.sources[id].Info().bus)
  {
    hide Reaches, StartOf, Abs, Table.Has, Table.Valid, View, SourceOk, Queued;
    IntakeAlways(capacity, ss, z);
    AbsRegions(z.table);
    LiveModel(z.table);
    RoutedIsHeld(capacity, ss, z, p);
  }
}
