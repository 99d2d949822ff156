/** The tracker's own snapshot in every reachable state: whoever asks for it can read it. */
module SnapshotRuns {
  import opened Types
  import opened Lists
  import opened Publication
  import opened ProductSpec
  import RegionSpec
  import opened RegionHistory
  import opened ReaderSpec
  import opened ReaderGrammar
  import opened PackageRead
  import opened TrackerSpec
  import opened TrackerModel
  import opened TrackerGroups
  import TrackerSnapshot
  import Keyed
  import opened Replication
  import opened Agreement
  import opened AgreementRuns

  predicate GoodContent(c: Content) {
    && (forall n :: n in c.services ==> n != "" && c.services[n].AllGood())
    && "" !in c.payloads
  }

  /** What the region says about itself and what it holds is complete. */
  ghost predicate GoodSource(src: Source) {
    && src.run.states != [] && src.Info().Stamp(1).Good()
    && forall i :: 0 <= i < |src.run.entries| ==> GoodContent(src.run.entries[i].after)
  }

  ghost predicate GoodSources(sources: map<string, Source>) {
    forall id :: id in sources ==> GoodSource(sources[id])
  }

  /** Processes start with complete records of their regions. */
  predicate GoodLaunch(s: Step) {
    s.Launch? ==> s.state.region.Wire().Stamp(1).Good()
  }

  lemma {:induction false} ValidContent(s: RegionSpec.RegionState)
    requires s.Valid()
    ensures GoodContent(s.Content())
  {
    hide ServiceMap;
    ServiceMapKeys(s.services);
    forall n | n in ServiceMap(s.services)
      ensures n != "" && ServiceMap(s.services)[n].AllGood()
    {
      assert HasKey(s.services, ServiceKey, n);
      var i :| 0 <= i < |s.services| && ServiceKey(s.services[i]) == n;
      ServiceMapAt(s.services, i);
    }
  }

  lemma {:induction false} GoodAdvances(src: Source, e: RegionSpec.Event)
    requires Consistent(src.run) && GoodSource(src) && RegionSpec.Enabled(src.run.Now(), e)
    requires Consistent(Advance(src.run, e))
    ensures GoodSource(src.(run := Advance(src.run, e)))
  {
    hide Chained, Describes, Described, GoodContent, RegionSpec.RegionState.Valid, RegionSpec.RegionState.Content,
      RegionSpec.Step, RegionSpec.Emitted;
    ValidContent(Advance(src.run, e).Now());
  }

  lemma {:induction false} StepKeepsGood(y: System, s: Step)
    requires IntakeInv(y) && GoodSources(y.sources) && Enabled(y, s) && Sound(s) && GoodLaunch(s)
    ensures GoodSources(Perform(y, s).sources)
  {
    hide Consistent, GoodSource, Advance, Begin, Table.Valid, Table.Has, Queued, Do, RegionSpec.RegionState.Valid,
      Unstarted, Synced, RegionSpec.Enabled, NoWrap;
    match s
    case Launch(state) => GoodBegins(state, RunsOf(y.sources, state.region.id));
    case Local(id, e) =>
      var src := y.sources[id];
      AdvanceSource(id, src, e);
      GoodAdvances(src, e);
    case Deliver(id, now) => GoodCursor(y.sources[id]);
    case SyncDone(id, k, now) => SyncedSources(y, id, k, now);
    case SyncUnstarted(id) => UnstartedSources(y, id);
    case _ =>
  }

  lemma {:induction false} GoodBegins(state: RegionSpec.RegionState, past: seq<Run>)
    requires !state.active && state.Valid() && state.region.Wire().Stamp(1).Good()
    ensures GoodSource(Source(Begin(state), 0, past))
  {
    hide GoodContent, Begin, RegionSpec.RegionState.Valid;
    BeginsWith(state);
    ValidContent(state);
  }

  lemma {:induction false} GoodCursor(src: Source)
    requires GoodSource(src)
    ensures GoodSource(src.(cursor := src.cursor + 1))
  {
  }

  lemma {:induction false} SyncedSources(y: System, id: string, k: nat, now: nat)
    requires Enabled(y, SyncDone(id, k, now))
    ensures Synced(y, id, k, now).sources == y.sources
  {
    hide CaughtUp, ReplaySucceeds, Do;
  }

  lemma {:induction false} UnstartedSources(y: System, id: string)
    requires id in y.syncing
    ensures Unstarted(y, id).sources == y.sources
  {
    hide Do, ObserveAll;
  }

  lemma {:induction false} RunKeepsGood(y: System, ss: seq<Step>, z: System)
    requires IntakeInv(y) && GoodSources(y.sources) && Reaches(y, ss, z)
    requires forall s :: s in ss ==> GoodLaunch(s)
    ensures GoodSources(z.sources)
    decreases |ss|
  {
    hide IntakeInv, GoodSources, Perform, Enabled, GoodLaunch;
    if ss != [] {
      PerformIntake(y, ss[0]);
      StepKeepsGood(y, ss[0]);
      RunKeepsGood(Perform(y, ss[0]), ss[1..], z);
    }
  }

  /** A table that shows only what complete regions hold is complete. */
  lemma {:induction false} ShownIsComplete(z: System, n: nat)
    requires IntakeInv(z) && AgreeInv(z, false) && GoodSources(z.sources) && !z.table.Has("") && n > 0
    ensures TrackerSnapshot.Complete(z.table, n)
  {
    hide Keyed.ByKey, SourceOk, Queued, GoodSource, GoodContent, Region.Good, Service.Good, Table.RobinValid, Agreed;
    var t := z.table;
    Keyed.ByKeyRows(t.regions, RegionKey, Itself);
    Keyed.ByKeyRows(t.services, ProvidedKey, ProvidedEndPoint);
    Keyed.ByKeyRows(t.payloads, CarriedKey, CarriedRegion);
    forall i | 0 <= i < |t.regions|
      ensures t.regions[i].id != "" && t.regions[i].Wire().Stamp(n).Good()
    {
      assert RegionKey(t.regions[i]) == t.regions[i].id;
      assert t.Has(t.regions[i].id);
      RegionComplete(z, t.regions[i], n);
    }
    forall p | p in t.services
      ensures p.service.Wire().Stamp(n).Good()
    {
      assert t.Has(p.region);
      ServiceComplete(z, p, n);
    }
    forall c | c in t.payloads
      ensures c.payload.id != ""
    {
      assert t.Has(c.region);
      PayloadComplete(z, c);
    }
  }

  lemma {:induction false} RegionComplete(z: System, r: Region, n: nat)
    requires Agreed(z, r.id, false) && GoodSources(z.sources) && n > 0
    requires r.id in Abs(z.table).regions && Abs(z.table).regions[r.id] == r
    ensures r.Wire().Stamp(n).Good()
  {
    hide Abs, GoodContent;
  }

  lemma {:induction false} ServiceComplete(z: System, p: Provided, n: nat)
    requires Agreed(z, p.region, false) && GoodSources(z.sources) && n > 0
    requires ProvidedKey(p) in Abs(z.table).endpoints && Abs(z.table).endpoints[ProvidedKey(p)] == p.service.endpoint
    ensures p.service.Wire().Stamp(n).Good()
  {
    hide Abs;
  }

  lemma {:induction false} PayloadComplete(z: System, c: Carried)
    requires Agreed(z, c.region, false) && GoodSources(z.sources)
    requires c.payload.id in Abs(z.table).owner && Abs(z.table).owner[c.payload.id] == c.region
    ensures c.payload.id != ""
  {
    hide Abs;
  }

  /** Whatever happens, as long as processes start with complete records and no client that does not
      start brings in a region without an id: the tracker's snapshot is complete at any time, and if
      it has a region a reader takes all of it. */
  lemma {:induction false} SnapshotAlwaysReadable(capacity: nat, ss: seq<Step>, z: System, n: nat)
    requires Reaches(StartOf(capacity), ss, z) && Connected(StartOf(capacity), ss)
    requires (forall s :: s in ss ==> GoodLaunch(s)) && n > 0
    ensures TrackerSnapshot.Complete(z.table, n)
    ensures z.table.regions != [] ==>
              Succeeds(TrackerSnapshot.TAKE_ALL, StartedReader([]), Reply(GroupsOf(z.table)), n)
  {
    hide Reaches, Connected, AgreeInv, TrackerSnapshot.Complete, Table.Has, GoodLaunch, Succeeds, Takes, GroupsCalls;
    IntakeAlways(capacity, ss, z);
    ShowsOnlyWhatIsThere(capacity, ss, z);
    OnlyAnnouncedRegions(capacity, ss, z);
    StartInv(capacity, false);
    RunKeepsGood(StartOf(capacity), ss, z);
    ShownIsComplete(z, n);
    TrackerSnapshot.TrackerSnapshotReadable(z.table, TrackerSnapshot.TAKE_ALL, [], n);
    TrackerSnapshot.TakesAll([], GroupsCalls(GroupsOf(z.table), n));
  }
}
