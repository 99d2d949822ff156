/** Regions, the publication channels and the tracker as one system.

    Each region runs on its own; its publications reach the tracker one after another, none lost.
    The tracker's table takes the publications of the regions it knows and hands the others on to
    the intake, which queues them while a snapshot of the region is fetched.
 */
module Replication {
  import opened Types
  import opened Publication
  import opened Package
  import opened ProductSpec
  import RegionSpec
  import opened RegionHistory
  import opened SubCacher
  import opened CatchUp
  import opened RegionTransfer
  import opened TrackerSpec
  import opened TrackerInvariant
  import opened Expiry

  /** A region process, how many of its publications the tracker has processed, and the runs of the
      processes that had the id before it. */
  datatype Source = Source(run: Run, cursor: nat, past: seq<Run>) {
    /** The region record without what changes. */
    function Info(): RegionMsg
      requires run.states != []
    {
      run.states[0].region.Wire()
    }

    /** The last publication that was processed. */
    function Last(): Entry
      requires 0 < cursor <= |run.entries|
    {
      run.entries[cursor - 1]
    }

    /** What was processed last withdrew the region, or nothing was processed yet. */
    predicate Gone() {
      0 < cursor <= |run.entries| ==> Last().pub.PubRmRegion?
    }
  }

  /** `syncing` holds the queue of each region whose snapshot is being fetched. */
  datatype System = System(sources: map<string, Source>, table: Table, syncing: map<string, seq<Update>>, capacity: nat)

  function StartOf(capacity: nat): System {
    System(map[], EMPTY_TABLE, map[], capacity)
  }

  datatype Step =
    | Launch(state: RegionSpec.RegionState)
    | Local(id: string, event: RegionSpec.Event)
    | Deliver(id: string, now: nat)
    | SyncFails(id: string)
    | SyncDone(id: string, k: nat, now: nat)
    | SyncUnstarted(id: string)
    | Route(name: string)
    | Timer(now: nat)

  /** A process may take an id that the tracker does not know: a new one, one that was withdrawn, or
      one that the tracker has let expire or given up after a crash.  What its predecessor has
      published and the tracker has not processed by then is lost with it. */
  predicate Enabled(y: System, s: Step) {
    match s
    case Launch(state) => !state.active && !y.table.Has(state.region.id) && state.region.id !in y.syncing
    case Local(id, e) =>
      && id in y.sources && y.sources[id].run.states != []
      && RegionSpec.Enabled(y.sources[id].run.Now(), e)
      && RegionSpec.KeepsObserver(y.sources[id].run.Now(), e)
      && NoWrap(y.sources[id].run, e)
      && (e.PubRepeatedTimer? ==> e.now > 0)
    case Deliver(id, _) => id in y.sources && y.sources[id].cursor < |y.sources[id].run.entries|
    case SyncFails(id) => id in y.syncing
    case SyncDone(id, k, _) => id in y.syncing && id in y.sources && k < |y.sources[id].run.states|
    case SyncUnstarted(id) => id in y.syncing
    case Route(_) => true
    case Timer(_) => true
  }

  /** A publication of region `id` as the table sees it; the record is stamped on receipt. */
  function OpOf(id: string, p: Pub, now: nat): Op {
    match p
    case PubRegion(r) => OpRegion(r.Stamp(now))
    case PubRmRegion => OpRmRegion(id)
    case PubService(v, s) => OpService(id, v, s.Stamp(now))
    case PubRmService(v, n) => OpRmService(id, v, n)
    case PubPayload(v, u) => OpPayload(id, v, Payload(u, now))
    case PubRmPayload(v, u) => OpRmPayload(id, v, u)
  }

  /** The intake: an unknown region's announcement starts a synchronisation if there is room; its
      later publications are queued. */
  function Intake(syncing: map<string, seq<Update>>, capacity: nat, id: string, p: Pub,
                  now: nat): map<string, seq<Update>>
  {
    if id in syncing then
      if p.PubRmRegion? then syncing - {id} else syncing[id := syncing[id] + [Received(p, now)]]
    else if p.PubRegion? && |syncing| < capacity then syncing[id := [Received(p, now)]]
    else syncing
  }

  function Delivered(y: System, id: string, now: nat): System
    requires Enabled(y, Deliver(id, now))
  {
    var src := y.sources[id];
    var p := src.run.entries[src.cursor].pub;
    var z := y.(sources := y.sources[id := src.(cursor := src.cursor + 1)]);
    if y.table.Has(id) then z.(table := Do(y.table, OpOf(id, p, now)))
    else z.(syncing := Intake(y.syncing, y.capacity, id, p, now))
  }

  /** The snapshot of state `k` as the client rebuilt it. */
  function Product(src: Source, k: nat, now: nat): ProductState
    requires k < |src.run.states|
  {
    var s := src.run.states[k];
    Rebuilt(Group(s.region, s.services, s.payloads), now)
  }

  /** The product after the replay of the queue. */
  function CaughtUp(src: Source, q: seq<Update>, id: string, k: nat, now: nat): ProductState
    requires k < |src.run.states|
  {
    var p := Product(src, k, now);
    ObserveAll(p, id, Replay(q, p.region.version).tail)
  }

  predicate ReplaySucceeds(y: System, id: string, k: nat, now: nat)
    requires Enabled(y, SyncDone(id, k, now))
  {
    Replay(y.syncing[id], Product(y.sources[id], k, now).region.version).result == 0
  }

  function Synced(y: System, id: string, k: nat, now: nat): System
    requires Enabled(y, SyncDone(id, k, now))
  {
    var z := y.(syncing := y.syncing - {id});
    if ReplaySucceeds(y, id, k, now) then
      var p := CaughtUp(y.sources[id], y.syncing[id], id, k, now);
      z.(table := Do(y.table, OpMerge(p.region, p.services, p.payloads)))
    else z
  }

  /** The client's worker did not start, which is reported as success: the queue is replayed on a
      product that nobody has filled. */
  function Unstarted(y: System, id: string): System
    requires id in y.syncing
  {
    var z := y.(syncing := y.syncing - {id});
    var r := Replay(y.syncing[id], EMPTY_PRODUCT.region.version);
    if r.result == 0 then
      var p := ObserveAll(EMPTY_PRODUCT, id, r.tail);
      z.(table := Do(y.table, OpMerge(p.region, p.services, p.payloads)))
    else z
  }

  /** The runs under an id, the one that goes on or has just ended included. */
  function RunsOf(sources: map<string, Source>, id: string): seq<Run> {
    if id in sources then sources[id].past + [sources[id].run] else []
  }

  /** A process starts under its id, whatever the tracker holds. */
  function Launched(y: System, state: RegionSpec.RegionState): System
    requires !state.active
  {
    var id := state.region.id;
    y.(sources := y.sources[id := Source(Begin(state), 0, RunsOf(y.sources, id))])
  }

  function Perform(y: System, s: Step): System
    requires Enabled(y, s)
  {
    match s
    case Launch(state) => Launched(y, state)
    case Local(id, e) =>
      var src := y.sources[id];
      y.(sources := y.sources[id := src.(run := Advance(src.run, e))])
    case Deliver(id, now) => Delivered(y, id, now)
    case SyncFails(id) => y.(syncing := y.syncing - {id})
    case SyncDone(id, k, now) => Synced(y, id, k, now)
    case SyncUnstarted(id) => Unstarted(y, id)
    case Route(name) => y.(table := Do(y.table, OpRobin(name)))
    case Timer(now) => y.(table := Do(y.table, OpTimer(now)))
  }

  // The intake invariant

  ghost predicate SourceOk(id: string, src: Source) {
    && Consistent(src.run)
    && src.run.states[0].region.id == id
    && src.cursor <= |src.run.entries|
  }

  /** The queue holds the latest publications that were processed, without a gap. */
  ghost predicate Queued(src: Source, q: seq<Update>) {
    && 0 < |q| <= src.cursor
    && Holds(q, src.run.entries, src.cursor - |q|, src.cursor)
  }

  /** The only region of the table that no process announced has no id: a client that never started
      can bring it in. */
  ghost predicate IntakeInv(y: System) {
    && y.table.Valid()
    && |y.syncing| <= y.capacity
    && "" !in y.sources
    && (forall id :: id in y.sources ==> SourceOk(id, y.sources[id]))
    && (forall id :: y.table.Has(id) ==> id == "" || (id in y.sources && !y.sources[id].Gone()))
    && (forall id :: id in y.syncing ==>
                       !y.table.Has(id) && id in y.sources && Queued(y.sources[id], y.syncing[id])
                       && !y.sources[id].Gone())
  }

  lemma {:induction false} AdvanceSource(id: string, src: Source, e: RegionSpec.Event)
    requires SourceOk(id, src) && RegionSpec.Enabled(src.run.Now(), e) && NoWrap(src.run, e)
    requires RegionSpec.KeepsObserver(src.run.Now(), e)
    requires e.PubRepeatedTimer? ==> e.now > 0
    ensures var t := src.(run := Advance(src.run, e));
            && SourceOk(id, t) && t.Info() == src.Info()
            && src.run.entries <= t.run.entries
            && t.Gone() == src.Gone()
  {
    hide Consistent, RegionSpec.Step, RegionSpec.Emitted;
    ConsistentStarted(src.run);
    AdvanceConsistent(src.run, e);
  }

  lemma {:induction false} SourceStarted(id: string, src: Source)
    requires SourceOk(id, src)
    ensures src.run.states != []
  {
  }

  lemma {:induction false} ConsistentStarted(r: Run)
    requires Consistent(r)
    ensures r.states != [] && r.entries != []
  {
  }

  lemma {:induction false} HoldsMore(q: seq<Update>, es: seq<Entry>, fs: seq<Entry>, i: nat, j: nat)
    requires Holds(q, es, i, j) && es <= fs
    ensures Holds(q, fs, i, j)
  {
  }

  lemma {:induction false} QueuedMore(src: Source, dst: Source, q: seq<Update>)
    requires Queued(src, q) && src.cursor == dst.cursor && src.run.entries <= dst.run.entries
    ensures Queued(dst, q)
  {
    hide Holds;
    HoldsMore(q, src.run.entries, dst.run.entries, src.cursor - |q|, src.cursor);
  }

  lemma {:induction false} QueuedNext(src: Source, q: seq<Update>, now: nat)
    requires src.cursor < |src.run.entries| && !src.run.entries[src.cursor].pub.PubRmRegion?
    requires q == [] || Queued(src, q)
    ensures Queued(src.(cursor := src.cursor + 1), q + [Received(src.run.entries[src.cursor].pub, now)])
  {
  }

  lemma {:induction false} MapSizes<K, V>(m: map<K, V>, k: K, v: V)
    ensures |m - {k}| <= |m|
    ensures |m[k := v]| == |m| + if k in m then 0 else 1
  {
    assert (m - {k}).Keys == m.Keys - {k};
    assert m[k := v].Keys == m.Keys + {k};
    if k in m {
      assert m.Keys + {k} == m.Keys;
    }
  }

  lemma {:induction false} DeliverIntake(y: System, id: string, now: nat)
    requires IntakeInv(y) && Enabled(y, Deliver(id, now))
    ensures IntakeInv(Delivered(y, id, now))
  {
    hide IntakeInv, OpOf, Intake, RegionSpec.Enabled, NoWrap;
    if y.table.Has(id) {
      KnownIntake(y, id, now);
    } else {
      UnknownIntake(y, id, now);
    }
  }

  lemma {:induction false} KnownIntake(y: System, id: string, now: nat)
    requires IntakeInv(y) && Enabled(y, Deliver(id, now)) && y.table.Has(id)
    ensures IntakeInv(Delivered(y, id, now))
  {
    hide Table.Valid, Table.Has, Do, SourceOk, Queued, Received, OpOf, Intake, RegionSpec.Enabled, NoWrap, Source.Gone;
    CursorOk(id, y.sources[id]);
    var p := y.sources[id].run.entries[y.sources[id].cursor].pub;
    DoValid(y.table, OpOf(id, p, now));
    OpRegions(y.table, OpOf(id, p, now));
    OpIsNoMerge(id, p, now);
    if p.PubRmRegion? {
      WithdrawnLeaves(y.table, id, p, now);
    } else {
      NotGone(y.sources[id]);
    }
  }

  lemma {:induction false} UnknownIntake(y: System, id: string, now: nat)
    requires IntakeInv(y) && Enabled(y, Deliver(id, now)) && !y.table.Has(id)
    ensures IntakeInv(Delivered(y, id, now))
  {
    hide Table.Valid, Table.Has, Do, SourceOk, Queued, Received, OpOf, Intake, RegionSpec.Enabled, NoWrap, Source.Gone;
    CursorOk(id, y.sources[id]);
    QueueIntake(y.sources[id], y.syncing, y.capacity, id, now);
    var z := Delivered(y, id, now);
    assert z.table == y.table && z.sources.Keys == y.sources.Keys;
    assert forall x :: x in y.sources && x != id ==> z.sources[x] == y.sources[x];
  }

  lemma {:induction false} WithdrawnLeaves(t: Table, id: string, p: Pub, now: nat)
    requires t.Valid() && t.Has(id) && p.PubRmRegion?
    ensures !Do(t, OpOf(id, p, now)).Has(id)
  {
    hide Table.Valid, Table.Has, DropRegion;
    DropRegionValid(t, id);
  }

  lemma {:induction false} CursorOk(id: string, src: Source)
    requires SourceOk(id, src) && src.cursor < |src.run.entries|
    ensures SourceOk(id, src.(cursor := src.cursor + 1))
  {
    hide Consistent;
  }

  lemma {:induction false} NotGone(src: Source)
    requires src.cursor < |src.run.entries| && !src.run.entries[src.cursor].pub.PubRmRegion?
    ensures !src.(cursor := src.cursor + 1).Gone()
  {
  }

  /** A publication that the intake takes leaves no gap in the queue. */
  lemma {:induction false} QueueIntake(src: Source, syncing: map<string, seq<Update>>, capacity: nat, id: string,
                                       now: nat)
    requires src.cursor < |src.run.entries| && |syncing| <= capacity
    requires id in syncing ==> Queued(src, syncing[id])
    ensures var m := Intake(syncing, capacity, id, src.run.entries[src.cursor].pub, now);
            && |m| <= capacity
            && (forall x :: x in m && x != id ==> x in syncing && m[x] == syncing[x])
            && (id in m ==> Queued(src.(cursor := src.cursor + 1), m[id]) && !src.(cursor := src.cursor + 1).Gone())
  {
    hide Queued, Received, Source.Gone;
    var p := src.run.entries[src.cursor].pub;
    if p.PubRmRegion? {
      MapSizes(syncing, id, []);
    } else {
      QueueOne(src, syncing, id, now);
    }
  }

  lemma {:induction false} QueueOne(src: Source, syncing: map<string, seq<Update>>, id: string, now: nat)
    requires src.cursor < |src.run.entries| && !src.run.entries[src.cursor].pub.PubRmRegion?
    requires id in syncing ==> Queued(src, syncing[id])
    ensures var u, t := Received(src.run.entries[src.cursor].pub, now), src.(cursor := src.cursor + 1);
            && !t.Gone()
            && (if id in syncing then Queued(t, syncing[id] + [u]) else Queued(t, [u]))
            && |syncing[id := if id in syncing then syncing[id] + [u] else [u]]| ==
               |syncing| + if id in syncing then 0 else 1
  {
    hide Queued, Received, Source.Gone;
    var u := Received(src.run.entries[src.cursor].pub, now);
    NotGone(src);
    QueuedNext(src, if id in syncing then syncing[id] else [], now);
    assert [] + [u] == [u];
    MapSizes(syncing, id, if id in syncing then syncing[id] + [u] else [u]);
  }

  lemma {:induction false} OpIsNoMerge(id: string, p: Pub, now: nat)
    ensures !OpOf(id, p, now).OpMerge? && !OpOf(id, p, now).OpTimer?
  {
  }

  /** Only a merge brings a region into the table. */
  lemma {:induction false} OpRegions(t: Table, op: Op)
    requires t.Valid()
    ensures forall x :: Do(t, op).Has(x) ==> t.Has(x) || (op.OpMerge? && x == op.region.id)
  {
    hide Table.Valid, Table.Has, Merge, TrackerSpec.OnRegion, DropRegion, SetVersion, PutService, RemoveService,
      PutPayload, RemovePayload, CheckTimer, ExpireRegions;
    match op
    case OpRegion(r) => OnRegionValid(t, r);
    case OpRmRegion(id) => DropRegionValid(t, id);
    case OpService(id, v, s) =>
      if t.Has(id) {
        PutServiceValid(t, id, s);
        SameRegions(t, PutService(t, id, s));
        SetVersionValid(PutService(t, id, s), id, v);
      }
    case OpRmService(id, v, n) =>
      RemoveServiceValid(t, id, n);
      SameRegions(t, RemoveService(t, id, n));
      SetVersionValid(RemoveService(t, id, n), id, v);
    case OpPayload(id, v, p) =>
      if t.Has(id) {
        PutPayloadValid(t, id, p);
        SameRegions(t, PutPayload(t, id, p));
        SetVersionValid(PutPayload(t, id, p), id, v);
      }
    case OpRmPayload(id, v, p) =>
      RemovePayloadValid(t, id, p);
      SameRegions(t, RemovePayload(t, id, p));
      SetVersionValid(RemovePayload(t, id, p), id, v);
    case OpMerge(r, ss, ps) => MergeValid(t, r, ss, ps);
    case OpRobin(n) => SameRegions(t, RobinRoute(t, n));
    case OpTimer(now) =>
      TimerIsExact(t, now);
      SuffixHas(t, CheckTimer(t, now), |Timeouted(t, now)|);
  }

  lemma {:induction false} SameRegions(t: Table, u: Table)
    requires t.regions == u.regions
    ensures forall x :: u.Has(x) <==> t.Has(x)
  {
  }

  lemma {:induction false} SuffixHas(t: Table, u: Table, n: nat)
    requires n <= |t.regions| && u.regions == t.regions[n..]
    ensures forall x :: u.Has(x) ==> t.Has(x)
  {
    forall x | u.Has(x)
      ensures t.Has(x)
    {
      var i :| 0 <= i < |u.regions| && RegionKey(u.regions[i]) == x;
      assert RegionKey(t.regions[n + i]) == x;
    }
  }

  lemma {:induction false} LocalIntake(y: System, id: string, e: RegionSpec.Event)
    requires IntakeInv(y) && Enabled(y, Local(id, e))
    ensures IntakeInv(Perform(y, Local(id, e)))
  {
    hide Table.Valid, Table.Has, SourceOk, Queued, Advance, Source.Gone;
    SourceStarted(id, y.sources[id]);
    AdvanceSource(id, y.sources[id], e);
    var z := Perform(y, Local(id, e));
    if id in y.syncing {
      QueuedMore(y.sources[id], z.sources[id], y.syncing[id]);
    }
  }

  /** Exactly the ids that the tracker does not know can start again without confusing the intake. */
  lemma {:induction false} RestartKeepsIntakeIff(y: System, state: RegionSpec.RegionState)
    requires IntakeInv(y) && !state.active && state.Valid() && state.region.id != ""
    ensures IntakeInv(Launched(y, state)) <==> !y.table.Has(state.region.id) && state.region.id !in y.syncing
  {
    hide Table.Valid, Table.Has, Consistent, Queued, RegionSpec.RegionState.Valid, Source.Gone;
    BeginConsistent(state);
    NewIsGone(Source(Begin(state), 0, RunsOf(y.sources, state.region.id)));
  }

  lemma {:induction false} NewIsGone(src: Source)
    requires src.cursor == 0
    ensures src.Gone()
  {
  }

  /** The rebuilt product carries the region's own id through the replay. */
  lemma {:induction false} CaughtUpId(src: Source, q: seq<Update>, id: string, k: nat, now: nat)
    requires SourceOk(id, src) && k < |src.run.states|
    ensures Product(src, k, now).region.id == id
    ensures CaughtUp(src, q, id, k, now).region.id == id
  {
    hide Replay, ObserveAll;
    KeepsId(Product(src, k, now), id, Replay(q, Product(src, k, now).region.version).tail);
  }

  lemma {:induction false} KeepsId(p: ProductState, id: string, us: seq<Update>)
    ensures ObserveAll(p, id, us).region.id == p.region.id
  {
    if us != [] {
      KeepsId(p, id, us[..|us| - 1]);
    }
  }

  lemma {:induction false} SyncIntake(y: System, id: string, k: nat, now: nat)
    requires IntakeInv(y) && Enabled(y, SyncDone(id, k, now))
    ensures IntakeInv(Synced(y, id, k, now))
  {
    hide Table.Valid, Table.Has, Do, SourceOk, Queued, CaughtUp, ReplaySucceeds, RegionSpec.Enabled, NoWrap, Product,
      Source.Gone;
    MapSizes(y.syncing, id, []);
    var p := CaughtUp(y.sources[id], y.syncing[id], id, k, now);
    CaughtUpId(y.sources[id], y.syncing[id], id, k, now);
    DoValid(y.table, OpMerge(p.region, p.services, p.payloads));
    OpRegions(y.table, OpMerge(p.region, p.services, p.payloads));
  }

  /** Replaying publications of a region on the empty product leaves it empty. */
  lemma {:induction false} NothingObserved(id: string, us: seq<Update>)
    requires id != "" && forall u :: u in us && u.UpdateRegion? ==> u.region.id != ""
    ensures ObserveAll(EMPTY_PRODUCT, id, us) == EMPTY_PRODUCT
  {
    if us != [] {
      NothingObserved(id, us[..|us| - 1]);
      assert us[|us| - 1] in us;
    }
  }

  lemma {:induction false} QueuedNames(src: Source, q: seq<Update>, id: string)
    requires SourceOk(id, src) && Queued(src, q)
    ensures forall u :: u in q && u.UpdateRegion? ==> u.region.id == id
  {
    hide Describes, Described;
    forall i | 0 <= i < |q| && q[i].UpdateRegion?
      ensures q[i].region.id == id
    {
      EntryLabel(src.run.entries, src.Info(), src.cursor - |q| + i, q[i]);
    }
  }

  /** What a client that never started leaves to be merged: nothing, or a region without an id. */
  lemma {:induction false} UnstartedProduct(src: Source, q: seq<Update>, id: string)
    requires SourceOk(id, src) && Queued(src, q) && id != ""
    ensures ObserveAll(EMPTY_PRODUCT, id, Replay(q, 0).tail) == EMPTY_PRODUCT
  {
    hide SourceOk, Queued, ObserveAll, Consecutive;
    QueuedNames(src, q, id);
    var t := Replay(q, 0).tail;
    forall u | u in t && u.UpdateRegion?
      ensures u.region.id != ""
    {
      assert u in q;
    }
    NothingObserved(id, t);
  }

  lemma {:induction false} UnstartedIntake(y: System, id: string)
    requires IntakeInv(y) && id in y.syncing
    ensures IntakeInv(Unstarted(y, id))
  {
    hide Table.Valid, Table.Has, Do, SourceOk, Queued, ObserveAll, Replay;
    MapSizes(y.syncing, id, []);
    UnstartedProduct(y.sources[id], y.syncing[id], id);
    DoValid(y.table, OpMerge(NO_REGION, [], []));
    OpRegions(y.table, OpMerge(NO_REGION, [], []));
  }

  /** Launched regions hold what `addService` and `addPayload` built. */
  ghost predicate Sound(s: Step) {
    s.Launch? ==> s.state.Valid() && s.state.region.id != ""
  }

  /** Over every interleaving: the regions being synchronised and the regions in the table are
      different ones, a region that has withdrawn is neither, no more synchronisations run than
      there is capacity for, each queue holds the latest publications without a gap, and the table
      is valid. */
  lemma {:induction false} PerformIntake(y: System, s: Step)
    requires IntakeInv(y) && Enabled(y, s) && Sound(s)
    ensures IntakeInv(Perform(y, s))
  {
    hide IntakeInv, Do, Delivered, Synced, Unstarted, RegionSpec.RegionState.Valid, RegionSpec.Enabled, NoWrap;
    match s
    case Launch(state) => RestartKeepsIntakeIff(y, state);
    case Local(id, e) => LocalIntake(y, id, e);
    case Deliver(id, now) => DeliverIntake(y, id, now);
    case SyncFails(id) => FailIntake(y, id);
    case SyncDone(id, k, now) => SyncIntake(y, id, k, now);
    case SyncUnstarted(id) => UnstartedIntake(y, id);
    case Route(name) => TableIntake(y, OpRobin(name));
    case Timer(now) => TableIntake(y, OpTimer(now));
  }

  lemma {:induction false} FailIntake(y: System, id: string)
    requires IntakeInv(y)
    ensures IntakeInv(y.(syncing := y.syncing - {id}))
  {
    hide Table.Valid, Table.Has, SourceOk, Queued;
    MapSizes(y.syncing, id, []);
  }

  lemma {:induction false} TableIntake(y: System, op: Op)
    requires IntakeInv(y) && !op.OpMerge?
    ensures IntakeInv(y.(table := Do(y.table, op)))
  {
    hide Table.Valid, Table.Has, SourceOk, Queued, Do;
    DoValid(y.table, op);
    OpRegions(y.table, op);
  }

  /** What the end of a transfer that was carried out does to the table. */
  ghost predicate SyncEnds(y: System, id: string, k: nat, now: nat)
    requires Enabled(y, SyncDone(id, k, now))
  {
    var p, z := CaughtUp(y.sources[id], y.syncing[id], id, k, now), Synced(y, id, k, now);
    && p.region.id == id && !y.table.Has(id)
    && (z.table.Has(id) <==> ReplaySucceeds(y, id, k, now))
    && (!ReplaySucceeds(y, id, k, now) ==> z.table == y.table)
    && id !in z.syncing
  }

  /** A merge of a fetched region never finds it in the table already; a failed replay leaves the
      table exactly as it was, and either way the synchronisation is over. */
  lemma {:induction false} SyncOutcome(y: System, id: string, k: nat, now: nat)
    requires IntakeInv(y) && Enabled(y, SyncDone(id, k, now))
    ensures SyncEnds(y, id, k, now)
  {
    hide Table.Valid, Table.Has, Merge, SourceOk, Queued, CaughtUp, ReplaySucceeds, RegionSpec.Enabled, NoWrap,
      Product;
    var p := CaughtUp(y.sources[id], y.syncing[id], id, k, now);
    CaughtUpId(y.sources[id], y.syncing[id], id, k, now);
    MergeValid(y.table, p.region, p.services, p.payloads);
  }

  /** The queue is an announcement, or another publication, of version 0, and then 1, 2, ... */
  predicate FromZero(q: seq<Update>) {
    q != [] && forall i :: 0 <= i < |q| ==> q[i].Version() == Plus(0, i)
  }

  /** On the publications of a run a replay from version 0 succeeds exactly if the first one has
      version 0 and each of the others raised it. */
  lemma {:induction false} ZeroReplays(src: Source, q: seq<Update>, id: string)
    requires SourceOk(id, src) && Queued(src, q)
    ensures Replay(q, 0).result == 0 <==> FromZero(q)
  {
    hide SourceOk, Queued, Replay, Plus;
    ReplaySucceedsIff(q, 0);
    if FromZero(q) {
      assert Continues(q, 0, 0);
    }
    PlusZero(0);
    if m: nat :| Continues(q, 0, m) {
      QueuedRises(src, q, id, m);
      assert forall i :: 0 <= i < |q| ==> q[i].Version() == Plus(0, i);
    }
  }

  lemma {:induction false} QueuedRises(src: Source, q: seq<Update>, id: string, m: nat)
    requires SourceOk(id, src) && Queued(src, q) && m < |q| && q[m].Version() == 0
    ensures q[0].Version() == 0
  {
    hide Describes, Described, Chained;
    var es, i := src.run.entries, src.cursor - |q|;
    EntryLabel(es, src.Info(), i, q[0]);
    EntryLabel(es, src.Info(), i + m, q[m]);
    SameVersionSameContent(es, src.Info(), i, i + m);
  }

  /** A client that never started is taken for one that has fetched a region without an id.  The
      table is left as it was exactly if the queue does not count up from version 0 or the table has
      such a region already; otherwise it gets one. */
  lemma {:induction false} UnstartedOutcome(y: System, id: string)
    requires IntakeInv(y) && id in y.syncing
    ensures var z := Unstarted(y, id);
            && z == y.(table := z.table, syncing := y.syncing - {id})
            && (z.table == y.table <==> !FromZero(y.syncing[id]) || y.table.Has(""))
            && (z.table != y.table ==> z.table == y.table.(regions := y.table.regions + [NO_REGION]))
  {
    hide Table.Valid, Table.Has, SourceOk, Queued, ObserveAll, Replay, FromZero;
    UnstartedProduct(y.sources[id], y.syncing[id], id);
    ZeroReplays(y.sources[id], y.syncing[id], id);
    assert PutServices(y.table, "", []) == y.table;
    assert |y.table.regions + [NO_REGION]| > |y.table.regions|;
  }
}
