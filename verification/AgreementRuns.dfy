/** Agreement and the intake invariant in every reachable state of the system. */
module AgreementRuns {
  import opened Types
  import opened Publication
  import opened ProductSpec
  import RegionSpec
  import opened RegionHistory
  import opened SubCacher
  import opened CatchUp
  import opened RegionTransfer
  import ServerSpec
  import Transfer
  import TransferFaults
  import opened Sweep
  import opened TrackerSpec
  import opened TrackerInvariant
  import opened TrackerModel
  import TrackerSnapshot
  import opened Expiry
  import opened Replication
  import opened Agreement

  lemma {:induction false} LocalAgree(y: System, id: string, e: RegionSpec.Event, full: bool)
    requires IntakeInv(y) && AgreeInv(y, full) && Enabled(y, Local(id, e))
    ensures AgreeInv(Perform(y, Local(id, e)), full)
  {
    hide Table.Valid, Table.Has, SourceOk, Queued, Advance, Agreed, Abs, RegionSpec.Enabled, NoWrap;
    var z := Perform(y, Local(id, e));
    forall x | z.table.Has(x) && x != ""
      ensures Agreed(z, x, full)
    {
      LocalGrows(y, id, e);
      StaysAgreed(y, z, x, full);
    }
  }

  lemma {:induction false} LocalGrows(y: System, id: string, e: RegionSpec.Event)
    requires IntakeInv(y) && Enabled(y, Local(id, e))
    ensures var z := Perform(y, Local(id, e));
            && (forall x :: x in y.sources ==>
                              x in z.sources && Remembers(y.sources[x], z.sources[x])
                              && y.sources[x].run.entries <= z.sources[x].run.entries)
            && (forall x :: x in y.sources ==>
                              && z.sources[x].cursor == y.sources[x].cursor
                              && y.sources[x].run.states != [] && z.sources[x].run.states != []
                              && z.sources[x].Info() == y.sources[x].Info())
  {
    hide Table.Valid, Table.Has, Queued, Advance, Consistent;
    AdvanceSource(id, y.sources[id], e);
    forall x | x in y.sources
      ensures y.sources[x].run.states != []
    {
      ConsistentStarted(y.sources[x].run);
    }
    var t := Advance(y.sources[id].run, e);
    assert SourceOk(id, y.sources[id].(run := t));
    ConsistentStarted(t);
  }

  lemma {:induction false} LaunchAgree(y: System, state: RegionSpec.RegionState, full: bool)
    requires IntakeInv(y) && AgreeInv(y, full) && Enabled(y, Launch(state))
    ensures AgreeInv(Perform(y, Launch(state)), full)
  {
    hide Table.Valid, Table.Has, SourceOk, Queued, Begin, Abs, View, Complete;
    var z, id := Perform(y, Launch(state)), state.region.id;
    if id in y.sources {
      assert Remembers(y.sources[id], z.sources[id]);
    }
    forall x | z.table.Has(x) && x != ""
      ensures Agreed(z, x, full)
    {
      assert Agreed(y, x, full);
      StaysAgreed(y, z, x, full);
    }
  }

  lemma {:induction false} SameRuns(s1: map<string, Source>, s2: map<string, Source>, m: Model, id: string, c: Content)
    requires Complete(s1, m, id, c)
    requires forall x :: x in s1 ==> x in s2 && s1[x].run == s2[x].run && s1[x].past == s2[x].past
    ensures Complete(s2, m, id, c)
  {
    hide Exclusive;
    forall p | Exclusive(s2, id, p)
      ensures Exclusive(s1, id, p)
    {
      GrowsExclusive(s1, s2, id, p);
    }
  }

  /** The region's own publication, taken by the table. */
  lemma {:induction false} DeliverOwn(src: Source, sources: map<string, Source>, m: Model, id: string, now: nat,
                                      full: bool)
    requires SourceOk(id, src) && 0 < src.cursor < |src.run.entries|
    requires src.run.states != [] && View(m, id, src.Info(), src.Last(), full)
    requires full ==> Complete(sources, m, id, src.Last().after)
    requires !src.run.entries[src.cursor].pub.PubRmRegion?
    ensures var e := src.run.entries[src.cursor];
            var w := Meaning(m, OpOf(id, e.pub, now));
            View(w, id, src.Info(), e, full) && (full ==> Complete(sources, w, id, e.after))
  {
    hide View, Complete, Describes, Described, Meaning, OpOf;
    var e := src.run.entries[src.cursor];
    assert Follows(src.Last(), e, src.Info());
    PubNames(src.run.entries, src.Info(), src.cursor);
    ViewHas(m, id, src.Info(), src.Last(), full);
    OwnPublication(m, id, src.Info(), src.Last(), e, now, full);
    if full {
      OwnComplete(sources, m, id, src.Info(), src.Last(), e, now);
    }
  }

  lemma {:induction false} ViewHas(m: Model, id: string, info: RegionMsg, e: Entry, full: bool)
    requires View(m, id, info, e, full)
    ensures id in m.regions
  {
  }

  /** Another region's publication, taken by the table. */
  lemma {:induction false} DeliverOther(sources: map<string, Source>, m: Model, id: string, now: nat, x: string,
                                        info: RegionMsg, e: Entry, full: bool)
    requires id in sources && SourceOk(id, sources[id]) && sources[id].cursor < |sources[id].run.entries| && x != id
    requires View(m, x, info, e, full) && (full ==> Complete(sources, m, x, e.after))
    ensures var w := Meaning(m, OpOf(id, sources[id].run.entries[sources[id].cursor].pub, now));
            View(w, x, info, e, full) && (full ==> Complete(sources, w, x, e.after))
  {
    hide View, Complete, Describes, Described, Meaning, OpOf;
    var src := sources[id];
    var p := src.run.entries[src.cursor].pub;
    PubNames(src.run.entries, src.Info(), src.cursor);
    OtherPublication(m, id, p, now, x, info, e, full);
    if full {
      OtherComplete(sources, m, id, src.cursor, p, now, x, e.after);
    }
  }

  lemma {:induction false} DeliverAgree(y: System, id: string, now: nat, full: bool)
    requires IntakeInv(y) && AgreeInv(y, full) && Enabled(y, Deliver(id, now))
    ensures AgreeInv(Delivered(y, id, now), full)
  {
    hide Table.Valid, Table.Has, SourceOk, Queued, Abs, View, Complete, RegionSpec.Enabled, NoWrap, Agreed, Do, OpOf,
      Intake;
    var z := Delivered(y, id, now);
    var src := y.sources[id];
    var p := src.run.entries[src.cursor].pub;
    if y.table.Has(id) {
      OpIsNoMerge(id, p, now);
      TableRefinesModel(y.table, OpOf(id, p, now));
      StaysBare(Abs(y.table), id, p, now);
    }
    forall x | z.table.Has(x) && x != ""
      ensures Agreed(z, x, full)
    {
      if y.table.Has(id) {
        OpIsNoMerge(id, p, now);
        OpRegions(y.table, OpOf(id, p, now));
        TableRefinesModel(y.table, OpOf(id, p, now));
        DeliverDirect(y, id, now, x, full);
      } else {
        StaysAgreed(y, z, x, full) by {
          AgreedRuns(y, x, full);
        }
      }
    }
  }

  lemma {:induction false} AgreedRuns(y: System, x: string, full: bool)
    requires Agreed(y, x, full)
    ensures x in y.sources && y.sources[x].run.states != []
  {
  }

  lemma {:induction false} DeliverDirect(y: System, id: string, now: nat, x: string, full: bool)
    requires y.table.Has(id) && Enabled(y, Deliver(id, now)) && SourceOk(id, y.sources[id])
    requires Agreed(y, x, full) && y.table.Valid()
    requires var z := Delivered(y, id, now);
             && z.table.Has(x)
             && Abs(z.table) ==
                Meaning(Abs(y.table), OpOf(id, y.sources[id].run.entries[y.sources[id].cursor].pub, now))
    ensures Agreed(Delivered(y, id, now), x, full)
  {
    hide Table.Valid, SourceOk, Abs, View, Complete, Meaning, TrackerSpec.OnRegion, TrackerSpec.OnService,
      TrackerSpec.OnRmService, TrackerSpec.OnPayload, TrackerSpec.OnRmPayload, DropRegion;
    var z := Delivered(y, id, now);
    var src := y.sources[id];
    var m, p := Abs(y.table), src.run.entries[src.cursor].pub;
    if x == id {
      if p.PubRmRegion? {
        DropRegionValid(y.table, id);
      }
      assert !p.PubRmRegion?;
      DeliverOwn(src, y.sources, m, id, now, full);
      if full {
        SameRuns(y.sources, z.sources, Abs(z.table), x, z.sources[x].Last().after);
      }
    } else {
      DeliverOther(y.sources, m, id, now, x, y.sources[x].Info(), y.sources[x].Last(), full);
      if full {
        SameRuns(y.sources, z.sources, Abs(z.table), x, z.sources[x].Last().after);
      }
    }
  }

  /** A transfer that fetches state `k` of a region, whatever fails in it, reports nothing, or that it
      failed, or success with the product of that state in the builder. */
  lemma {:induction false} TransferGivesProduct(src: Source, id: string, k: nat, requester: string, capacity: nat,
                                                period: nat, now: nat, ws: map<string, ServerSpec.Worker>,
                                                faults: seq<TransferFaults.Fault>, t: Transfer.Sys)
    requires SourceOk(id, src) && id != "" && k < |src.run.states| && now > 0
    requires var c := Fetch(src.run.states[k], requester, capacity, period, now);
             TransferFaults.Reaches(c, Transfer.Init(c, ws), faults, t)
    ensures t.client.completed == [] || t.client.completed == [0] || t.client.completed == [-1]
    ensures t.client.completed == [0] ==> BuildAll(EMPTY_PRODUCT, t.client.calls) == Product(src, k, now)
  {
    hide TransferFaults.Reaches, Transfer.Init, BuildAll, Rebuilt, Chained, Describes, Described,
      RegionSpec.RegionState.Valid;
    SuccessIsRegion(src.run.states[k], requester, capacity, period, now, ws, faults, t);
  }

  /** What is merged agrees with the region at the last publication that was queued: nothing is
      lost or taken twice between the queue and the table. */
  lemma {:induction false} CaughtUpAgrees(src: Source, q: seq<Update>, id: string, k: nat, now: nat)
    requires SourceOk(id, src) && Queued(src, q) && k < |src.run.states|
    requires Replay(q, Product(src, k, now).region.version).result == 0
    ensures 0 < src.cursor <= |src.run.entries| && src.run.states != []
    ensures Agrees(CaughtUp(src, q, id, k, now), src.Info(), src.Last().version, src.Last().after)
  {
    hide Agrees, Replay, ObserveAll, RegionSpec.RegionState.Content, ProductState.Content, Rebuilt, Holds;
    ConsistentStarted(src.run);
    RebuiltContent(src.run.states[k], now);
    Converges(src.run, q, src.cursor - |q|, src.cursor, k, Product(src, k, now));
  }

  lemma {:induction false} SyncAgree(y: System, id: string, k: nat, now: nat, full: bool)
    requires IntakeInv(y) && AgreeInv(y, full) && Enabled(y, SyncDone(id, k, now))
    ensures AgreeInv(Synced(y, id, k, now), full)
  {
    hide Table.Valid, Table.Has, SourceOk, Queued, Abs, View, Complete, RegionSpec.Enabled, NoWrap, Agreed, Do,
      CaughtUp, Product, Agrees;
    var z := Synced(y, id, k, now);
    var src := y.sources[id];
    var p := CaughtUp(src, y.syncing[id], id, k, now);
    if ReplaySucceeds(y, id, k, now) {
      CaughtUpId(src, y.syncing[id], id, k, now);
      TableRefinesModel(y.table, OpMerge(p.region, p.services, p.payloads));
      MergedBare(Abs(y.table), p);
    }
    forall x | z.table.Has(x) && x != ""
      ensures Agreed(z, x, full)
    {
      if ReplaySucceeds(y, id, k, now) {
        CaughtUpId(src, y.syncing[id], id, k, now);
        CaughtUpAgrees(src, y.syncing[id], id, k, now);
        TableRefinesModel(y.table, OpMerge(p.region, p.services, p.payloads));
        OpRegions(y.table, OpMerge(p.region, p.services, p.payloads));
        AbsRegions(y.table);
        SyncMerged(y, z, p, x, full);
      } else {
        AgreedRuns(y, x, full);
        StaysAgreed(y, z, x, full);
      }
    }
  }

  lemma {:induction false} UnstartedAgree(y: System, id: string, full: bool)
    requires IntakeInv(y) && AgreeInv(y, full) && id in y.syncing
    ensures AgreeInv(Unstarted(y, id), full)
  {
    hide Table.Valid, Table.Has, SourceOk, Queued, Abs, View, Complete, Do, ObserveAll, Replay;
    var z := Unstarted(y, id);
    UnstartedProduct(y.sources[id], y.syncing[id], id);
    MergedBare(Abs(y.table), EMPTY_PRODUCT);
    TableRefinesModel(y.table, OpMerge(NO_REGION, [], []));
    OpRegions(y.table, OpMerge(NO_REGION, [], []));
    forall x | z.table.Has(x) && x != ""
      ensures Agreed(z, x, full)
    {
      assert Agreed(y, x, full);
      NamelessMerge(Abs(y.table), NO_REGION, x, y.sources[x].Info(), y.sources[x].Last(), full);
      if full {
        SameOwners(y.sources, Abs(y.table), Abs(z.table), x, y.sources[x].Last().after);
      }
    }
  }

  lemma {:induction false} SameOwners(sources: map<string, Source>, m: Model, w: Model, id: string, c: Content)
    requires Complete(sources, m, id, c) && m.owner == w.owner
    ensures Complete(sources, w, id, c)
  {
    hide Exclusive;
  }

  lemma {:induction false} SyncMerged(y: System, z: System, p: ProductState, x: string, full: bool)
    requires y.table.Valid() && z.sources == y.sources && p.region.id in y.sources
    requires p.region.id !in Abs(y.table).regions
    requires Abs(z.table) == Merged(Abs(y.table), p.region, p.services, p.payloads)
    requires var src := y.sources[p.region.id];
             && 0 < src.cursor <= |src.run.entries| && src.run.states != []
             && Agrees(p, src.Info(), src.Last().version, src.Last().after)
    requires x == p.region.id || Agreed(y, x, full)
    ensures Agreed(z, x, full)
  {
    hide Table.Valid, Table.Has, Abs, View, Merged, Exclusive;
    var m := Abs(y.table);
    var src := y.sources[p.region.id];
    LiveModel(y.table);
    if x == p.region.id {
      MergedView(m, p, src.Info(), src.Last(), full);
    } else {
      MergedOther(m, p, x, y.sources[x].Info(), y.sources[x].Last(), full);
      if full {
        MergedComplete(y.sources, m, p, src.cursor - 1, x, y.sources[x].Last().after);
      }
    }
  }

  /** The timer takes out whole regions only: no service or payload of another region is expired. */
  predicate Calm(t: Table, now: nat) {
    var t1 := DropRegions(t, Ids(Timeouted(t, now)));
    && ExpiredPrefix(t1.services, ProvidedAge, now - SERVICE_TIMEOUT_MS) == 0
    && ExpiredPrefix(t1.payloads, CarriedAge, now - PAYLOAD_TIMEOUT_MS) == 0
  }

  lemma {:induction false} CalmTimer(t: Table, now: nat)
    requires t.Valid() && Calm(t, now)
    ensures CheckTimer(t, now) == DropRegions(t, Ids(Timeouted(t, now)))
  {
    hide Table.Valid, ExpireRegions, DropRegions;
    ExpiredRegions(t, 3, now);
  }

  lemma {:induction false} TimerAgree(y: System, now: nat, full: bool)
    requires IntakeInv(y) && AgreeInv(y, full) && (full ==> Calm(y.table, now))
    ensures AgreeInv(y.(table := Do(y.table, OpTimer(now))), full)
  {
    hide Table.Valid, Table.Has, SourceOk, Queued, Abs, View, Complete, CheckTimer, DropRegions, Timeouted, Calm;
    var z, ids := y.(table := Do(y.table, OpTimer(now))), Ids(Timeouted(y.table, now));
    CheckTimerValid(y.table, now);
    ExpiredBare(y.table, now);
    OpRegions(y.table, OpTimer(now));
    forall x | z.table.Has(x) && x != ""
      ensures Agreed(z, x, full)
    {
      if full {
        CalmTimer(y.table, now);
        DroppedAgreed(y.sources, y.table, ids, x, y.sources[x].Info(), y.sources[x].Last(), full);
      } else {
        ExpiredView(y.table, now, x, y.sources[x].Info(), y.sources[x].Last());
      }
    }
  }

  lemma {:induction false} RouteAgree(y: System, name: string, full: bool)
    requires IntakeInv(y) && AgreeInv(y, full)
    ensures AgreeInv(y.(table := Do(y.table, OpRobin(name))), full)
  {
    hide Table.Valid, Table.Has, SourceOk, Queued, Abs, View, Complete, RobinRoute;
    var z := y.(table := Do(y.table, OpRobin(name)));
    RobinKeepsLists(y.table, name);
    OpRegions(y.table, OpRobin(name));
  }

  /** Every step that expires no single service or payload keeps the agreement. */
  lemma {:induction false} PerformAgree(y: System, s: Step, full: bool)
    requires IntakeInv(y) && AgreeInv(y, full) && Enabled(y, s) && (full && s.Timer? ==> Calm(y.table, s.now))
    ensures AgreeInv(Perform(y, s), full)
  {
    hide IntakeInv, Table.Has, Delivered, Synced, Unstarted, Calm, RegionSpec.Enabled, NoWrap, Agreed, Do;
    match s
    case Launch(state) => LaunchAgree(y, state, full);
    case Local(id, e) => LocalAgree(y, id, e, full);
    case Deliver(id, now) => DeliverAgree(y, id, now, full);
    case SyncFails(id) => FailAgree(y, id, full);
    case SyncDone(id, k, now) => SyncAgree(y, id, k, now, full);
    case SyncUnstarted(id) => UnstartedAgree(y, id, full);
    case Route(name) => RouteAgree(y, name, full);
    case Timer(now) => TimerAgree(y, now, full);
  }

  lemma {:induction false} FailAgree(y: System, id: string, full: bool)
    requires AgreeInv(y, full) && id in y.syncing
    ensures AgreeInv(Perform(y, SyncFails(id)), full)
  {
    hide Abs, View, Complete, Table.Has;
  }

  /** `z` is reached from `y` by these steps. */
  ghost predicate Reaches(y: System, ss: seq<Step>, z: System)
    decreases |ss|
  {
    if ss == [] then y == z
    else Enabled(y, ss[0]) && Sound(ss[0]) && Reaches(Perform(y, ss[0]), ss[1..], z)
  }

  /** No single service or payload expires on the way. */
  ghost predicate CalmRun(y: System, ss: seq<Step>)
    decreases |ss|
  {
    || ss == []
    || (Enabled(y, ss[0]) && (ss[0].Timer? ==> Calm(y.table, ss[0].now)) && CalmRun(Perform(y, ss[0]), ss[1..]))
  }

  lemma {:induction false} KeepsIntake(y: System, ss: seq<Step>, z: System)
    requires IntakeInv(y) && Reaches(y, ss, z)
    ensures IntakeInv(z)
    decreases |ss|
  {
    hide IntakeInv, Perform, Enabled;
    if ss != [] {
      PerformIntake(y, ss[0]);
      KeepsIntake(Perform(y, ss[0]), ss[1..], z);
    }
  }

  lemma {:induction false} KeepsAgreement(y: System, ss: seq<Step>, z: System, full: bool)
    requires IntakeInv(y) && AgreeInv(y, full) && Reaches(y, ss, z) && (full ==> CalmRun(y, ss))
    ensures AgreeInv(z, full)
    decreases |ss|
  {
    hide IntakeInv, AgreeInv, Perform, Enabled, Calm;
    if ss != [] {
      PerformIntake(y, ss[0]);
      PerformAgree(y, ss[0], full);
      KeepsAgreement(Perform(y, ss[0]), ss[1..], z, full);
    }
  }

  lemma {:induction false} StartInv(capacity: nat, full: bool)
    ensures IntakeInv(StartOf(capacity)) && AgreeInv(StartOf(capacity), full)
  {
    EmptyValid();
  }

  /** The intake invariant holds in every reachable state. */
  lemma {:induction false} IntakeAlways(capacity: nat, ss: seq<Step>, z: System)
    requires Reaches(StartOf(capacity), ss, z)
    ensures IntakeInv(z)
  {
    hide IntakeInv, AgreeInv, Reaches, StartOf;
    StartInv(capacity, true);
    KeepsIntake(StartOf(capacity), ss, z);
  }

  /** End to end: in every state reached without expiry of single services or payloads, each region
      in the table that has an id has the record, version and services it had at the last of its
      publications that was processed, and exactly its payloads but for those that another region
      announced too. */
  lemma {:induction false} AgreementAlways(capacity: nat, ss: seq<Step>, z: System)
    requires Reaches(StartOf(capacity), ss, z) && CalmRun(StartOf(capacity), ss)
    ensures AgreeInv(z, true)
  {
    hide IntakeInv, AgreeInv, Reaches, CalmRun, StartOf;
    StartInv(capacity, true);
    KeepsAgreement(StartOf(capacity), ss, z, true);
  }

  /** With any expiry the table still shows no record, version, service, endpoint or payload that the
      region did not have at the last of its publications that was processed. */
  lemma {:induction false} ShowsOnlyWhatIsThere(capacity: nat, ss: seq<Step>, z: System)
    requires Reaches(StartOf(capacity), ss, z)
    ensures AgreeInv(z, false)
  {
    hide IntakeInv, AgreeInv, Reaches, StartOf;
    StartInv(capacity, false);
    KeepsAgreement(StartOf(capacity), ss, z, false);
  }

  /** Asked for a region, the tracker answers exactly if the region is in the table, and, if it has an
      id, with the record and version it had at the last of its publications that was processed. */
  lemma {:induction false} AnswersWithRecord(capacity: nat, ss: seq<Step>, z: System, id: string)
    requires Reaches(StartOf(capacity), ss, z)
    ensures GetRegion(Abs(z.table), id) == None <==> !z.table.Has(id)
    ensures z.table.Has(id) && id != "" ==>
              && Agreed(z, id, false)
              && GetRegion(Abs(z.table), id).Some?
              && GetRegion(Abs(z.table), id).value.Wire() ==
                 z.sources[id].Info().(version := z.sources[id].Last().version)
  {
    hide Reaches, StartOf, Abs, Table.Has, Table.Valid, ServicesWithin, ServicesAll, SourceOk, Queued;
    ShowsOnlyWhatIsThere(capacity, ss, z);
    IntakeAlways(capacity, ss, z);
    AbsRegions(z.table);
  }

  /** So a payload that only its region announces is routed to that region's bus. */
  lemma {:induction false} RoutesAgree(capacity: nat, ss: seq<Step>, z: System, id: string, p: string)
    requires Reaches(StartOf(capacity), ss, z) && CalmRun(StartOf(capacity), ss) && z.table.Has(id) && id != ""
    ensures Agreed(z, id, true)
    ensures p in z.sources[id].Last().after.payloads && Exclusive(z.sources, id, p) ==>
              RoutePayload(Abs(z.table), p) == Some(z.sources[id].Info().bus)
  {
    hide Reaches, CalmRun, StartOf, Exclusive, Abs, ServicesWithin, ServicesAll, Table.Has;
    AgreementAlways(capacity, ss, z);
    assert Agreed(z, id, true);
  }

  /** Whatever expires: if a payload is routed at all, it is routed to the bus of a region that held it
      at the last of its publications that was processed. */
  lemma {:induction false} RoutedIsHeld(capacity: nat, ss: seq<Step>, z: System, p: string)
    requires Reaches(StartOf(capacity), ss, z) && RoutePayload(Abs(z.table), p) != None
    ensures var id := Abs(z.table).owner[p];
            && Agreed(z, id, false)
            && p in z.sources[id].Last().after.payloads
            && RoutePayload(Abs(z.table), p) == Some(z.sources[id].Info().bus)
  {
    hide Reaches, StartOf, Exclusive, ServicesWithin, ServicesAll, Table.Has, Table.Valid, Abs;
    ShowsOnlyWhatIsThere(capacity, ss, z);
    IntakeAlways(capacity, ss, z);
    AbsRegions(z.table);
    assert Agreed(z, Abs(z.table).owner[p], false);
  }

  // A client that never started

  /** No client that does not start ends a queue that counts up from version 0. */
  ghost predicate Connected(y: System, ss: seq<Step>)
    decreases |ss|
  {
    || ss == []
    || (&& Enabled(y, ss[0])
        && (ss[0].SyncUnstarted? ==> !FromZero(y.syncing[ss[0].id]))
        && Connected(Perform(y, ss[0]), ss[1..]))
  }

  /** A step brings a region without an id into the table exactly if it ends such a queue so. */
  lemma {:induction false} NamelessAppearsIff(y: System, s: Step)
    requires IntakeInv(y) && Enabled(y, s) && Sound(s) && !y.table.Has("")
    ensures Perform(y, s).table.Has("") <==> s.SyncUnstarted? && FromZero(y.syncing[s.id])
  {
    hide Table.Valid, Table.Has, SourceOk, Queued, Do, OpOf, Intake, RegionSpec.Enabled, NoWrap, FromZero, CaughtUp,
      ReplaySucceeds, Product, Unstarted, Advance, Begin, Source.Gone;
    match s
    case Launch(state) =>
    case Local(id, e) =>
    case Deliver(id, now) =>
      var p := y.sources[id].run.entries[y.sources[id].cursor].pub;
      OpIsNoMerge(id, p, now);
      OpRegions(y.table, OpOf(id, p, now));
    case SyncFails(id) =>
    case SyncDone(id, k, now) =>
      var p := CaughtUp(y.sources[id], y.syncing[id], id, k, now);
      CaughtUpId(y.sources[id], y.syncing[id], id, k, now);
      OpRegions(y.table, OpMerge(p.region, p.services, p.payloads));
    case SyncUnstarted(id) =>
      UnstartedOutcome(y, id);
      NamelessAdded(y.table);
    case Route(name) => OpRegions(y.table, OpRobin(name));
    case Timer(now) => OpRegions(y.table, OpTimer(now));
  }

  lemma {:induction false} NamelessAdded(t: Table)
    ensures t.(regions := t.regions + [NO_REGION]).Has("")
  {
    HasAppend(t.regions, NO_REGION, RegionKey, "");
  }

  lemma {:induction false} KeepsNames(y: System, ss: seq<Step>, z: System)
    requires IntakeInv(y) && !y.table.Has("") && Reaches(y, ss, z) && Connected(y, ss)
    ensures !z.table.Has("")
    decreases |ss|
  {
    hide IntakeInv, Perform, Enabled, Table.Has, FromZero;
    if ss != [] {
      PerformIntake(y, ss[0]);
      NamelessAppearsIff(y, ss[0]);
      KeepsNames(Perform(y, ss[0]), ss[1..], z);
    }
  }

  /** Unless a client does not start while its region is announced at version 0 and has only mutated
      since, every region in the table is one that was announced. */
  lemma {:induction false} OnlyAnnouncedRegions(capacity: nat, ss: seq<Step>, z: System)
    requires Reaches(StartOf(capacity), ss, z) && Connected(StartOf(capacity), ss)
    ensures forall id :: z.table.Has(id) ==> id != "" && id in z.sources
  {
    hide Reaches, Connected, Table.Valid, SourceOk, Queued;
    StartInv(capacity, true);
    KeepsIntake(StartOf(capacity), ss, z);
    KeepsNames(StartOf(capacity), ss, z);
  }

  lemma {:induction false} AnnouncedAtZero(s: RegionSpec.RegionState, now: nat) returns (y: System)
    requires s.Valid() && !s.active && s.region.version == 0 && s.region.id != ""
    ensures var id := s.region.id;
            && Enabled(StartOf(1), Launch(s)) && Enabled(Perform(StartOf(1), Launch(s)), Deliver(id, now))
            && y == Perform(Perform(StartOf(1), Launch(s)), Deliver(id, now))
            && IntakeInv(y) && y.table == EMPTY_TABLE && id in y.syncing && FromZero(y.syncing[id])
  {
    hide Table.Valid, RegionSpec.RegionState.Valid, Consistent, SourceOk, Queued, Plus;
    var id := s.region.id;
    var y1 := Perform(StartOf(1), Launch(s));
    StartInv(1, true);
    PerformIntake(StartOf(1), Launch(s));
    PerformIntake(y1, Deliver(id, now));
    y := Perform(y1, Deliver(id, now));
    assert y.syncing[id] == [Received(PubRegion(s.region.Wire()), now)];
    PlusZero(0);
  }

  /** The failing input: a new region, whose version is 0, is announced, and the client cannot connect
      to its snapshot address.  The tracker then holds a region without an id, and nobody can read the
      tracker's own snapshot. */
  lemma {:induction false} UnreachableRegionIsMerged(s: RegionSpec.RegionState, now: nat) returns (z: System)
    requires s.Valid() && !s.active && s.region.version == 0 && s.region.id != ""
    ensures Reaches(StartOf(1), [Launch(s), Deliver(s.region.id, now), SyncUnstarted(s.region.id)], z)
    ensures z.table == EMPTY_TABLE.(regions := [NO_REGION])
    ensures forall n :: !TrackerSnapshot.Complete(z.table, n)
  {
    hide IntakeInv, RegionSpec.RegionState.Valid, Begin, Perform, FromZero, Intake;
    var id := s.region.id;
    var y := AnnouncedAtZero(s, now);
    UnstartedOutcome(y, id);
    z := Perform(y, SyncUnstarted(id));
    assert z == Unstarted(y, id) by { PerformUnstarted(y, id); }
    ThreeSteps(StartOf(1), Launch(s), Deliver(id, now), SyncUnstarted(id));
    assert z.table.regions[0].id == "";
  }

  lemma {:induction false} PerformUnstarted(y: System, id: string)
    requires id in y.syncing
    ensures Perform(y, SyncUnstarted(id)) == Unstarted(y, id)
  {
    hide Unstarted;
  }

  lemma {:induction false} ThreeSteps(y: System, a: Step, b: Step, c: Step)
    requires Enabled(y, a) && Sound(a)
    requires Enabled(Perform(y, a), b) && Sound(b)
    requires Enabled(Perform(Perform(y, a), b), c) && Sound(c)
    ensures Reaches(y, [a, b, c], Perform(Perform(Perform(y, a), b), c))
  {
    hide Enabled, Perform, Sound;
    assert [a, b, c][1..] == [b, c] && [b, c][1..] == [c] && [c][1..] == [];
    var y2 := Perform(Perform(y, a), b);
    assert Reaches(y2, [c], Perform(y2, c));
    assert Reaches(Perform(y, a), [b, c], Perform(y2, c));
  }
}
