/** What becomes of a process that starts again although the tracker did not see its predecessor go. */
module Restart {
  import opened Types
  import opened Publication
  import opened ProductSpec
  import RegionSpec
  import opened RegionHistory
  import opened SubCacher
  import opened CatchUp
  import opened TrackerSpec
  import opened TrackerInvariant
  import opened TrackerModel
  import opened Replication
  import opened Agreement
  import opened AgreementRuns

  /** The services that the table shows of a region. */
  function Shown(m: Model, id: string): map<string, EndPoint> {
    map k | k in m.endpoints && k.region == id :: k.name := m.endpoints[k]
  }

  /** The payloads that it routes to the region. */
  function Owned(m: Model, id: string): set<string> {
    set p | p in m.owner && m.owner[p] == id
  }

  /** The table shows what the region holds: no other service, no payload that it lacks, and with
      `full` all of its services, and all payloads but for those that another region announced too. */
  ghost predicate Matches(y: System, id: string, c: Content, full: bool) {
    var m := Abs(y.table);
    && Shown(m, id).Items <= c.services.Items && Owned(m, id) <= c.payloads
    && (full ==>
          && Shown(m, id) == c.services
          && forall p :: p in c.payloads - Owned(m, id) ==> !Exclusive(y.sources, id, p))
  }

  /** The process starts, whatever the tracker knows, and its announcement is processed. */
  function Restarted(y: System, state: RegionSpec.RegionState, now: nat): System
    requires !state.active
  {
    Delivered(Launched(y, state), state.region.id, now)
  }

  lemma {:induction false} RestartedIntake(y: System, state: RegionSpec.RegionState, now: nat)
    requires IntakeInv(y) && !state.active && state.Valid() && state.region.id != "" && y.table.Has(state.region.id)
    ensures IntakeInv(Restarted(y, state, now))
  {
    hide Table.Valid, Table.Has, Consistent, Queued, RegionSpec.RegionState.Valid, Do, Received;
    var id := state.region.id;
    BeginConsistent(state);
    DoValid(y.table, OpRegion(state.region.Wire().Stamp(now)));
    OpRegions(y.table, OpRegion(state.region.Wire().Stamp(now)));
  }

  lemma {:induction false} RestartedModel(y: System, state: RegionSpec.RegionState, now: nat)
    requires y.table.Valid() && !state.active && y.table.Has(state.region.id)
    ensures var m, r := Abs(y.table), state.region.Wire().Stamp(now);
            Abs(Restarted(y, state, now).table) == m.(regions := m.regions[r.id := r])
    ensures Restarted(y, state, now).sources == Launched(y, state).sources[state.region.id :=
                                                Source(Begin(state), 1, RunsOf(y.sources, state.region.id))]
    ensures forall x :: Restarted(y, state, now).table.Has(x) <==> y.table.Has(x)
  {
    hide Table.Valid, Table.Has, Do, Abs;
    AbsRegions(y.table);
    DoValid(y.table, OpRegion(state.region.Wire().Stamp(now)));
    AbsRegions(Do(y.table, OpRegion(state.region.Wire().Stamp(now))));
    TableRefinesModel(y.table, OpRegion(state.region.Wire().Stamp(now)));
  }

  lemma {:induction false} ShownIff(m: Model, id: string, c: Content)
    ensures ServicesWithin(m, id, c) <==> Shown(m, id).Items <= c.services.Items
    ensures ServicesWithin(m, id, c) && ServicesAll(m, id, c) <==> Shown(m, id) == c.services
    ensures OnlyOwnPayloads(m, id, c) <==> Owned(m, id) <= c.payloads
  {
    var shown := Shown(m, id);
    forall n
      ensures n in shown <==> ServiceId(id, n) in m.endpoints
      ensures n in shown ==> shown[n] == m.endpoints[ServiceId(id, n)]
    {
      assert ServiceId(id, n) in m.endpoints ==> ServiceId(id, n).name in shown;
    }
    if Shown(m, id).Items <= c.services.Items {
      forall n | n in shown
        ensures n in c.services && shown[n] == c.services[n]
      {
        assert (n, shown[n]) in c.services.Items;
      }
    }
  }

  lemma {:induction false} CompleteIff(s1: map<string, Source>, s2: map<string, Source>, m: Model, id: string,
                                       c: Content)
    requires forall x :: x != id ==> (x in s1 <==> x in s2) && (x in s1 ==> s1[x] == s2[x])
    ensures Complete(s2, m, id, c) <==> forall p :: p in c.payloads - Owned(m, id) ==> !Exclusive(s1, id, p)
  {
    hide NeverHad;
    assert forall p :: Exclusive(s2, id, p) <==> Exclusive(s1, id, p);
  }

  lemma {:induction false} RestartedSelfIff(y: System, state: RegionSpec.RegionState, now: nat, full: bool)
    requires IntakeInv(y) && !state.active && y.table.Has(state.region.id)
    requires state.region.id in Abs(y.table).regions
    ensures Agreed(Restarted(y, state, now), state.region.id, full) <==>
            Matches(y, state.region.id, state.Content(), full)
  {
    hide Table.Valid, Table.Has, Do, Abs, Restarted, NeverHad, SourceOk, Queued, RegionSpec.RegionState.Content,
      Shown, Owned, Exclusive, Complete, Begin, ServicesWithin, ServicesAll, OnlyOwnPayloads;
    var id, z, c := state.region.id, Restarted(y, state, now), state.Content();
    RestartedModel(y, state, now);
    BeginsWith(state);
    ShownIff(Abs(z.table), id, c);
    CompleteIff(y.sources, z.sources, Abs(z.table), id, c);
    SameShown(Abs(y.table), Abs(z.table), id);
  }

  lemma {:induction false} SameShown(m: Model, w: Model, id: string)
    requires m.endpoints == w.endpoints && m.owner == w.owner
    ensures Shown(m, id) == Shown(w, id) && Owned(m, id) == Owned(w, id)
  {
  }

  lemma {:induction false} RestartedOther(y: System, state: RegionSpec.RegionState, now: nat, x: string, full: bool)
    requires y.table.Valid() && !state.active && y.table.Has(state.region.id)
    requires Agreed(y, x, full) && x != state.region.id
    ensures Agreed(Restarted(y, state, now), x, full)
  {
    hide Table.Valid, Table.Has, Do, Abs, Restarted, Exclusive, Begin;
    var id, z := state.region.id, Restarted(y, state, now);
    RestartedModel(y, state, now);
    forall p | Exclusive(z.sources, x, p)
      ensures Exclusive(y.sources, x, p)
    {
      GrowsExclusive(y.sources, z.sources, x, p);
    }
  }

  /** If the table still has the region, the successor's announcement is taken for one more heartbeat.
      The table agrees with the successor exactly if it shows what the successor holds. */
  lemma {:induction false} RestartAgreesIff(y: System, state: RegionSpec.RegionState, now: nat, full: bool)
    requires IntakeInv(y) && AgreeInv(y, full)
    requires !state.active && state.Valid() && state.region.id != "" && y.table.Has(state.region.id)
    ensures IntakeInv(Restarted(y, state, now))
    ensures AgreeInv(Restarted(y, state, now), full) <==> Matches(y, state.region.id, state.Content(), full)
  {
    hide Table.Valid, Table.Has, Queued, SourceOk, Matches, Agreed, Restarted, Abs, RegionSpec.RegionState.Valid,
      RegionSpec.RegionState.Content;
    var id, z := state.region.id, Restarted(y, state, now);
    RestartedIntake(y, state, now);
    RestartedModel(y, state, now);
    AbsRegions(y.table);
    RestartedSelfIff(y, state, now, full);
    forall x | z.table.Has(x) && x != "" && x != id
      ensures Agreed(z, x, full)
    {
      RestartedOther(y, state, now, x, full);
    }
  }

  /** A successor that the table matches is as good as one that was synchronised: the agreement holds
      from then on. */
  lemma {:induction false} MatchingRestartIsSafe(y: System, state: RegionSpec.RegionState, now: nat, full: bool,
                                                 ss: seq<Step>, z: System)
    requires IntakeInv(y) && AgreeInv(y, full)
    requires !state.active && state.Valid() && state.region.id != "" && y.table.Has(state.region.id)
    requires Matches(y, state.region.id, state.Content(), full)
    requires Reaches(Restarted(y, state, now), ss, z) && (full ==> CalmRun(Restarted(y, state, now), ss))
    ensures IntakeInv(z) && AgreeInv(z, full)
  {
    hide IntakeInv, AgreeInv, Matches, Restarted, Reaches, CalmRun, RegionSpec.RegionState.Valid,
      RegionSpec.RegionState.Content, Table.Has;
    RestartAgreesIff(y, state, now, full);
    KeepsIntake(Restarted(y, state, now), ss, z);
    KeepsAgreement(Restarted(y, state, now), ss, z, full);
  }

  // A predecessor whose region is still being synchronised

  /** A process starts again while its region is being synchronised: `queued` was there of its
      predecessor, `behind` is its own.  If the replay succeeds, the product is the successor's, whatever
      was queued before, unless the predecessor had used up the versions. */
  lemma {:induction false} ConvergesAcrossRestart(dead: Run, queued: seq<Update>, i: nat, n: nat, r: Run,
                                                  behind: seq<Update>, j: nat, k: nat, p: ProductState)
    requires Consistent(dead) && Holds(queued, dead.entries, i, n) && i < n && dead.entries[n - 1].version < 0xFFFF_FFFF
    requires Consistent(r) && Holds(behind, r.entries, 0, j) && 0 < j && k < |r.states|
    requires p.region.Wire() == r.states[k].region.Wire() && p.Content() == r.states[k].Content()
    requires Replay(queued + behind, p.region.version).result == 0
    ensures var info := r.states[0].region.Wire();
            var last := r.entries[j - 1];
            var tail := Replay(queued + behind, p.region.version).tail;
            Agrees(ObserveAll(p, info.id, tail), info, last.version, last.after)
  {
    hide RegionSpec.RegionState.Valid, RegionSpec.RegionState.Content, ProductState.Content, Chained, Replay,
      ObserveAll, Described, Describes, Agrees;
    var q, v := queued + behind, p.region.version;
    ReplaySucceedsIff(q, v);
    var m: nat :| Continues(q, v, m);
    assert q[|queued|] == behind[0];
    EntryLabel(r.entries, r.states[0].region.Wire(), 0, behind[0]);
    FirstVersion(r, k);
    if m < |queued| {
      RunsOn(dead, queued, i, n, q, v, m);
    }
    ReplaySucceedsIff(behind, v);
    assert Continues(behind, v, m - |queued|) by {
      assert forall x :: 0 <= x < |behind| ==> behind[x] == q[|queued| + x];
    }
    assert q[m + 1..] == behind[m - |queued| + 1..];
    Converges(r, behind, 0, j, k, p);
  }

  /** A replay that began in the predecessor's part of the queue expects a version that the
      successor's first one does not have. */
  lemma {:induction false} RunsOn(dead: Run, queued: seq<Update>, i: nat, n: nat, q: seq<Update>, v: uint32, m: nat)
    requires Consistent(dead) && Holds(queued, dead.entries, i, n) && 0 < n && dead.entries[n - 1].version < 0xFFFF_FFFF
    requires queued <= q && m < |queued| < |q| && Continues(q, v, m)
    ensures v < q[|queued|].Version()
  {
    hide Chained, Described, Describes;
    var info := dead.states[0].region.Wire();
    assert Continues(queued, v, m);
    ContinuesRises(queued, dead.entries, info, i, v, m);
    VersionsRise(queued, dead.entries, info, i, v, m, |queued| - 1);
  }

  lemma {:induction false} FirstVersion(r: Run, k: nat)
    requires Consistent(r) && k < |r.states|
    ensures r.entries[0].version <= r.states[k].region.version
  {
    hide Chained;
    assert Described(r, k);
    var i: nat :| Describes(r, i, k);
    SameVersionSameContent(r.entries, r.states[0].region.Wire(), 0, i);
  }

  /** Before the successor's announcement is queued this fails: its snapshot is fetched, and a service
      that its predecessor had added is replayed on it. */
  lemma {:induction false} StaleQueueIsReplayed(region: Region, s: Service)
    requires region.version == 0 && s.Good()
    ensures var successor := RegionSpec.RegionState(region, [], [], true, true, []);
            var p := ProductState(region, [], []);
            var queued := [UpdateRegion(region), UpdateService(1, s)];
            && p.Content() == successor.Content()
            && Replay(queued, p.region.version) == Replayed(0, [queued[1]])
            && s.name in ObserveAll(p, region.id, [queued[1]]).Content().services
            && s.name !in successor.Content().services
  {
    var queued := [UpdateRegion(region), UpdateService(1, s)];
    assert Continues(queued, 0, 0);
    ReplaySucceedsIff(queued, 0);
    ContentAdd([], [], s, Payload("", 0));
    assert [] + [s] == [s];
    assert [queued[1]][..0] == [];
    ServiceMapKeys([]);
  }

  // The failing input

  /** A successor that holds nothing announces itself at version 0; the table takes that for the region
      it knows and goes on showing a service that is gone. */
  lemma {:induction false} CrashGoesUnnoticed(r: Region, s: Service, now: nat)
    requires r.version == 0
    ensures var before := Merge(EMPTY_TABLE, r.(version := 1), [s], []);
            var restarted := RegionSpec.RegionState(r, [], [], true, true, []);
            var after := Do(before, OpOf(r.id, PubRegion(restarted.region.Wire()), now));
            && r.id in Abs(after).regions && Abs(after).regions[r.id].Wire() == restarted.region.Wire()
            && ServiceId(r.id, s.name) in Abs(after).endpoints
            && s.name !in restarted.Content().services
  {
    hide Table.Valid, Abs, Do, Merge, WithServices, ServiceMap;
    var r1 := r.(version := 1);
    EmptyValid();
    var before := Merge(EMPTY_TABLE, r1, [s], []);
    MergeValid(EMPTY_TABLE, r1, [s], []);
    AbsEmpty();
    AbsMerge(EMPTY_TABLE, r1, [s], []);
    ServicesMerged(Model(map[r1.id := r1], map[], map[]), r1.id, [s]);
    ServiceMapAt([s], 0);
    ServiceMapKeys([]);
    assert Abs(before) == WithServices(Model(map[r1.id := r1], map[], map[]), r1.id, [s]);
    TableRefinesModel(before, OpOf(r.id, PubRegion(r.Wire()), now));
  }

  lemma {:induction false} AbsEmpty()
    ensures Abs(EMPTY_TABLE) == Model(map[], map[], map[])
  {
  }
}
