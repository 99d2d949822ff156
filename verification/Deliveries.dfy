/** What becomes of a publication: it is queued, or it renews a row of the table, which then stays for
    as long as the tracker waits. */
module Deliveries {
  import opened Types
  import opened Lists
  import opened Keyed
  import opened Publication
  import opened ProductSpec
  import RegionSpec
  import RegionEffects
  import opened RegionHistory
  import opened CatchUp
  import opened Sweep
  import opened TrackerSpec
  import opened Ordering
  import opened TableEffects
  import opened Expiry
  import opened Replication
  import opened Agreement
  import opened AgreementRuns
  import opened Ownership

  // The intake

  /** The publication as the subscriber rebuilds it: nothing but the stamp is new. */
  predicate StampedOn(u: Update, p: Pub, now: nat) {
    match p
    case PubRegion(r) => u == UpdateRegion(Region(r.id, r.version, r.idc, r.bus, r.snapshot, now))
    case PubRmRegion => false
    case PubService(v, s) => u == UpdateService(v, Service(s.name, s.endpoint, now))
    case PubRmService(v, n) => u == Update.RmService(v, n)
    case PubPayload(v, i) => u == UpdatePayload(v, Payload(i, now))
    case PubRmPayload(v, i) => u == Update.RmPayload(v, i)
  }

  lemma {:induction false} ReceivedStamped(p: Pub, now: nat)
    requires !p.PubRmRegion?
    ensures StampedOn(Received(p, now), p, now)
  {
  }

  /** An announcement opens a synchronisation exactly if there is room, with that announcement as its
      queue; while one runs every publication goes behind the queue, except the withdrawal, which ends
      it; others are dropped.  No other region is touched. */
  ghost predicate TakenIn(before: map<string, seq<Update>>, after: map<string, seq<Update>>, capacity: nat, id: string,
                          p: Pub, now: nat)
  {
    && after - {id} == before - {id}
    && (id !in before ==>
          && (id in after <==> p.PubRegion? && |before| < capacity)
          && (id in after ==> |after[id]| == 1 && StampedOn(after[id][0], p, now)))
    && (id in before ==>
          && (id in after <==> !p.PubRmRegion?)
          && (id in after ==> |after[id]| == |before[id]| + 1 && before[id] <= after[id] &&
                              StampedOn(after[id][|before[id]|], p, now)))
  }

  lemma {:induction false} IntakeTakes(before: map<string, seq<Update>>, capacity: nat, id: string, p: Pub, now: nat)
    requires |before| <= capacity
    ensures TakenIn(before, Intake(before, capacity, id, p, now), capacity, id, p, now)
  {
    hide Received, StampedOn;
    if !p.PubRmRegion? {
      ReceivedStamped(p, now);
    }
  }

  /** What happens to a publication of a region that the table does not have. */
  lemma {:induction false} IntakeEffect(y: System, id: string, now: nat)
    requires IntakeInv(y) && Enabled(y, Deliver(id, now)) && !y.table.Has(id)
    ensures var z := Perform(y, Deliver(id, now));
            && z.table == y.table && z.capacity == y.capacity
            && TakenIn(y.syncing, z.syncing, y.capacity, id, NextPub(y, id), now)
  {
    hide Table.Valid, Table.Has, SourceOk, Queued, RegionSpec.Enabled, NoWrap, Source.Gone, TakenIn, Intake;
    IntakeTakes(y.syncing, y.capacity, id, NextPub(y, id), now);
  }

  /** A publication of a region in the table leaves the intake alone. */
  lemma {:induction false} KnownKeepsQueues(y: System, id: string, now: nat)
    requires Enabled(y, Deliver(id, now)) && y.table.Has(id)
    ensures var z := Perform(y, Deliver(id, now)); z.syncing == y.syncing && z.capacity == y.capacity
  {
    hide Do, OpOf;
  }

  // Withdrawal

  /** A region that has stopped, however many other things happen: when the last of what it has
      published is processed, the tracker does not know it any more. */
  lemma {:induction false} StopWithdraws(y: System, id: string, ss: seq<Step>, z: System)
    requires IntakeInv(y) && Enabled(y, Local(id, RegionSpec.Stop)) && y.sources[id].run.Now().active
    requires Reaches(Perform(y, Local(id, RegionSpec.Stop)), ss, z)
    requires id in z.sources && z.sources[id].run == Perform(y, Local(id, RegionSpec.Stop)).sources[id].run
    requires z.sources[id].cursor == |z.sources[id].run.entries|
    ensures !z.table.Has(id) && id !in z.syncing
  {
    hide IntakeInv, Table.Has, Perform, RegionSpec.Step, RegionSpec.Emitted;
    var e: RegionSpec.Event := RegionSpec.Stop;
    PerformIntake(y, Local(id, e));
    KeepsIntake(Perform(y, Local(id, e)), ss, z);
    StopEntry(y, id);
    assert z.sources[id].Gone();
    GoneIsUnknown(z, id);
  }

  lemma {:induction false} StopEntry(y: System, id: string)
    requires IntakeInv(y) && Enabled(y, Local(id, RegionSpec.Stop)) && y.sources[id].run.Now().active
    ensures id in Perform(y, Local(id, RegionSpec.Stop)).sources
    ensures var es := Perform(y, Local(id, RegionSpec.Stop)).sources[id].run.entries;
            es != [] && es[|es| - 1].pub.PubRmRegion?
  {
    hide Table.Valid, Table.Has, Queued, Chained, Describes, RegionSpec.Step, RegionSpec.Emitted, Source.Gone;
    var r := y.sources[id].run;
    assert r.states[|r.states| - 1].observed;
    RegionEffects.LifeEffect(r.Now(), true);
  }

  lemma {:induction false} GoneIsUnknown(z: System, id: string)
    requires IntakeInv(z) && id in z.sources && z.sources[id].Gone()
    ensures !z.table.Has(id) && id !in z.syncing
  {
    hide Table.Has, Table.Valid, SourceOk, Queued;
  }

  // Rows of the table

  datatype Row = RegionRow | ServiceRow(name: string) | PayloadRow(pid: string)

  /** The region's row is there, and was renewed at `since` or later. */
  ghost predicate Held(t: Table, id: string, row: Row, since: nat) {
    match row
    case RegionRow => exists r :: r in t.regions && r.id == id && r.timeval >= since
    case ServiceRow(n) => exists p :: p in t.services && ProvidedKey(p) == ServiceId(id, n) && ProvidedAge(p) >= since
    case PayloadRow(u) => exists c :: c in t.payloads && CarriedBoth(c) == PayloadId(id, u) && CarriedAge(c) >= since
  }

  /** A publication that the table takes puts the region's row there with the stamp of its receipt, the
      endpoint that was published and, for the region itself, the record. */
  lemma {:induction false} DeliverRenews(y: System, id: string, now: nat)
    requires IntakeInv(y) && Enabled(y, Deliver(id, now)) && y.table.Has(id)
    ensures var p, t := NextPub(y, id), Perform(y, Deliver(id, now)).table;
            match p
            case PubRegion(r) =>
              && Region(id, r.version, r.idc, r.bus, r.snapshot, now) in t.regions && Held(t, id, RegionRow, now)
            case PubService(_, s) =>
              && Provided(id, Service(s.name, s.endpoint, now)) in t.services && Held(t, id, ServiceRow(s.name), now)
            case PubPayload(_, u) =>
              && Carried(id, Payload(u, now)) in t.payloads && Held(t, id, PayloadRow(u), now)
            case _ => true
  {
    hide Table.Valid, Table.Has, Queued, Do, RegionSpec.Enabled, NoWrap, Source.Gone, Describes, Described;
    var p := NextPub(y, id);
    PubNames(y.sources[id].run.entries, y.sources[id].Info(), y.sources[id].cursor);
    PubRenews(y.table, id, p, now);
  }

  lemma {:induction false} PubRenews(t: Table, id: string, p: Pub, now: nat)
    requires t.Valid() && t.Has(id) && (p.PubRegion? ==> p.region.id == id)
    ensures var u := Do(t, OpOf(id, p, now));
            match p
            case PubRegion(r) =>
              && Region(id, r.version, r.idc, r.bus, r.snapshot, now) in u.regions && Held(u, id, RegionRow, now)
            case PubService(_, s) =>
              && Provided(id, Service(s.name, s.endpoint, now)) in u.services && Held(u, id, ServiceRow(s.name), now)
            case PubPayload(_, x) =>
              && Carried(id, Payload(x, now)) in u.payloads && Held(u, id, PayloadRow(x), now)
            case _ => true
  {
    hide Table.Valid, Table.Has, Do, KeepsOrder, HasKey;
    match p
    case PubRegion(r) => RegionEffect(t, r.Stamp(now));
    case PubService(v, s) =>
      ServiceEffect(t, id, v, s.Stamp(now));
      assert ProvidedKey(Provided(id, Service(s.name, s.endpoint, now))) == ServiceId(id, s.name);
    case PubPayload(v, x) =>
      PayloadEffect(t, id, v, Payload(x, now));
      assert CarriedBoth(Carried(id, Payload(x, now))) == PayloadId(id, x);
    case _ =>
  }

  /** The step takes the row: the region removes it or withdraws, for a service or a payload also the
      region has expired, for a payload also another region's claim is taken. */
  ghost predicate Taken(y: System, s: Step, id: string, row: Row)
    requires Enabled(y, s)
  {
    match row
    case RegionRow => s.Deliver? && s.id == id && NextPub(y, id).PubRmRegion?
    case ServiceRow(n) =>
      || (s.Deliver? && s.id == id && NextPub(y, id).PubRmRegion?)
      || (s.Deliver? && s.id == id && NextPub(y, id).PubRmService? && NextPub(y, id).name == n)
      || (s.Timer? && id in Ids(Timeouted(y.table, s.now)))
    case PayloadRow(u) => Loses(y, s, id, u)
  }

  /** How long the tracker waits for a row to be renewed, in milliseconds. */
  function Patience(row: Row): nat {
    if row.RegionRow? then 30000 else 125000
  }

  /** The tracker's clock does not go back, and its timer runs while it still waits. */
  predicate InTime(s: Step, row: Row, since: nat) {
    (s.Timer? ==> s.now < since + Patience(row)) && (s.Deliver? ==> s.now >= since)
  }

  lemma {:induction false} KeptMembers<V(!new), K(!new)>(s: seq<V>, w: seq<V>, key: V -> K, k: K)
    requires KeepsOrder(s, w, key, k)
    ensures forall v :: v in s && key(v) != k ==> v in w
  {
    var p: seq<nat> :| Selects(s, w, key, k, p);
    forall v | v in s && key(v) != k
      ensures v in w
    {
      var i :| 0 <= i < |s| && s[i] == v;
      assert i in p;
      var j :| 0 <= j < |p| && p[j] == i;
      assert w[j] == v;
    }
  }

  lemma {:induction false} PutMembers<V(!new), K(!new)>(s: seq<V>, u: seq<V>, key: V -> K, x: V)
    requires PutLast(s, u, key, x)
    ensures forall v :: v in s && key(v) != key(x) ==> v in u
    ensures x in u
  {
    hide KeepsOrder, HasKey;
    KeptMembers(s, u[..|u| - 1], key, key(x));
  }

  lemma {:induction false} StillRegion(t: Table, x: string, q: Pub, now: nat, id: string, since: nat)
    requires t.Valid() && t.Has(x) && (q.PubRegion? ==> q.region.id == x) && now >= since
    requires Held(t, id, RegionRow, since) && !(x == id && q.PubRmRegion?)
    ensures Held(Do(t, OpOf(x, q, now)), id, RegionRow, since)
  {
    hide Table.Valid, Table.Has, Do, KeepsOrder, PutLast;
    var row :| row in t.regions && row.id == id && row.timeval >= since;
    var i :| 0 <= i < |t.regions| && t.regions[i] == row;
    var u := Do(t, OpOf(x, q, now));
    match q
    case PubRegion(r) =>
      RegionEffect(t, r.Stamp(now));
      PutMembers(t.regions, u.regions, RegionKey, r.Stamp(now));
      if x == id {
        assert r.Stamp(now).id == id;
      }
    case PubRmRegion =>
      RegionEffect(t, Region(x, 0, "", EndPoint("", ""), EndPoint("", ""), 0));
      KeptMembers(t.regions, u.regions, RegionKey, x);
    case PubService(v, s) =>
      ServiceEffect(t, x, v, s.Stamp(now));
      assert u.regions[i].id == id && u.regions[i].timeval >= since && u.regions[i] in u.regions;
    case PubRmService(v, n) =>
      TableEffects.RemovalEffect(t, x, v, n, "");
      assert u.regions[i].id == id && u.regions[i].timeval >= since && u.regions[i] in u.regions;
    case PubPayload(v, pid) =>
      PayloadEffect(t, x, v, Payload(pid, now));
      assert u.regions[i].id == id && u.regions[i].timeval >= since && u.regions[i] in u.regions;
    case PubRmPayload(v, pid) =>
      TableEffects.RemovalEffect(t, x, v, "", pid);
      assert u.regions[i].id == id && u.regions[i].timeval >= since && u.regions[i] in u.regions;
  }

  lemma {:induction false} StillService(t: Table, x: string, q: Pub, now: nat, id: string, n: string, since: nat)
    requires t.Valid() && t.Has(x) && (q.PubRegion? ==> q.region.id == x) && now >= since
    requires Held(t, id, ServiceRow(n), since) && !(x == id && (q.PubRmRegion? || (q.PubRmService? && q.name == n)))
    ensures Held(Do(t, OpOf(x, q, now)), id, ServiceRow(n), since)
  {
    hide Table.Valid, Table.Has, Do, KeepsOrder, PutLast, Reversioned;
    var row :| row in t.services && ProvidedKey(row) == ServiceId(id, n) && ProvidedAge(row) >= since;
    var u := Do(t, OpOf(x, q, now));
    match q
    case PubRegion(r) => RegionEffect(t, r.Stamp(now));
    case PubRmRegion =>
      RegionEffect(t, Region(x, 0, "", EndPoint("", ""), EndPoint("", ""), 0));
      KeptMembers(t.services, u.services, ProvidedRegion, x);
    case PubService(v, s) =>
      var put := Provided(x, s.Stamp(now));
      ServiceEffect(t, x, v, s.Stamp(now));
      PutMembers(t.services, u.services, ProvidedKey, put);
      assert ProvidedKey(put) == ServiceId(id, n) ==> put in u.services && ProvidedAge(put) >= since;
    case PubRmService(v, m) =>
      TableEffects.RemovalEffect(t, x, v, m, "");
      KeptMembers(t.services, u.services, ProvidedKey, ServiceId(x, m));
    case PubPayload(v, pid) => PayloadEffect(t, x, v, Payload(pid, now));
    case PubRmPayload(v, pid) => TableEffects.RemovalEffect(t, x, v, "", pid);
  }

  lemma {:induction false} StillPayload(t: Table, x: string, q: Pub, now: nat, id: string, pid: string, since: nat)
    requires t.Valid() && t.Has(x) && (q.PubRegion? ==> q.region.id == x) && now >= since
    requires Held(t, id, PayloadRow(pid), since)
    requires !(x == id && (q.PubRmRegion? || (q.PubRmPayload? && q.uuid == pid)))
    requires !(x != id && q.PubPayload? && q.uuid == pid)
    ensures Held(Do(t, OpOf(x, q, now)), id, PayloadRow(pid), since)
  {
    hide Table.Valid, Table.Has, Do, KeepsOrder, PutLast, Reversioned;
    var row :| row in t.payloads && CarriedBoth(row) == PayloadId(id, pid) && CarriedAge(row) >= since;
    var u := Do(t, OpOf(x, q, now));
    match q
    case PubRegion(r) => RegionEffect(t, r.Stamp(now));
    case PubRmRegion =>
      RegionEffect(t, Region(x, 0, "", EndPoint("", ""), EndPoint("", ""), 0));
      KeptMembers(t.payloads, u.payloads, CarriedRegion, x);
    case PubService(v, s) => ServiceEffect(t, x, v, s.Stamp(now));
    case PubRmService(v, m) => TableEffects.RemovalEffect(t, x, v, m, "");
    case PubPayload(v, p) =>
      var put := Carried(x, Payload(p, now));
      PayloadEffect(t, x, v, Payload(p, now));
      PutMembers(t.payloads, u.payloads, CarriedKey, put);
      assert p == pid ==> CarriedBoth(put) == PayloadId(id, pid) && CarriedAge(put) >= since;
    case PubRmPayload(v, p) =>
      TableEffects.RemovalEffect(t, x, v, "", p);
      KeptMembers(t.payloads, u.payloads, CarriedBoth, PayloadId(x, p));
  }

  lemma {:induction false} StillMerged(t: Table, r: Region, ss: seq<Service>, ps: seq<Payload>, id: string, row: Row,
                                       since: nat)
    requires t.Valid() && Held(t, id, row, since) && (row.PayloadRow? ==> row.pid !in PayloadSet(ps))
    ensures Held(Do(t, OpMerge(r, ss, ps)), id, row, since)
  {
    hide Table.Valid, Table.Has, Merge, Others, PutAll, DistinctKeys, HasKey;
    MergeIs(t, r, ss, ps);
    var u := Do(t, OpMerge(r, ss, ps));
    if !t.Has(r.id) {
      MergedRows(t, r, ss, ps);
      OthersAre(t.payloads, CarriedKey, CarriedOf(r.id, ps));
      CarriedHas(r.id, ps);
      NotAmong(ps, if row.PayloadRow? then row.pid else "");
    } else {
      KnownIsNotMerged(t, r, ss, ps);
    }
  }

  lemma {:induction false} NotAmong(ps: seq<Payload>, pid: string)
    ensures pid !in PayloadSet(ps) ==> !HasKey(ps, PayloadKey, pid)
  {
  }

  lemma {:induction false} StillWaits(t: Table, now: nat, id: string, row: Row, since: nat)
    requires t.Valid() && Held(t, id, row, since) && now < since + Patience(row)
    requires !row.RegionRow? ==> id !in Ids(Timeouted(t, now))
    ensures Held(Do(t, OpTimer(now)), id, row, since)
  {
    hide Table.Valid, Table.Has, CheckTimer, DropRegions, ExpiredPrefix;
    TimerIsExact(t, now);
    TimerTakesOnlyExpired(t, now);
    match row
    case RegionRow =>
      var r :| r in t.regions && r.id == id && r.timeval >= since;
      var i :| 0 <= i < |t.regions| && t.regions[i] == r;
      NotTimeouted(t, now, i);
      assert t.regions[|Timeouted(t, now)|..][i - |Timeouted(t, now)|] == r;
    case ServiceRow(n) =>
      var p :| p in t.services && ProvidedKey(p) == ServiceId(id, n) && ProvidedAge(p) >= since;
      assert p in Do(t, OpTimer(now)).services;
    case PayloadRow(u) =>
      var c :| c in t.payloads && CarriedBoth(c) == PayloadId(id, u) && CarriedAge(c) >= since;
      assert c in Do(t, OpTimer(now)).payloads;
  }

  lemma {:induction false} NotTimeouted(t: Table, now: nat, i: nat)
    requires i < |t.regions| && now < t.regions[i].timeval + 30000
    ensures |Timeouted(t, now)| <= i
  {
    assert forall j :: 0 <= j < |Timeouted(t, now)| ==> RegionAge(t.regions[j]) <= now - REGION_TIMEOUT_MS;
  }

  lemma {:induction false} HeldIsLive(t: Table, id: string, row: Row, since: nat)
    requires t.Valid() && Held(t, id, row, since)
    ensures t.Has(id)
  {
    hide Table.RobinValid, DistinctKeys;
    match row
    case RegionRow =>
      var r :| r in t.regions && r.id == id && r.timeval >= since;
      var i :| 0 <= i < |t.regions| && t.regions[i] == r;
      assert RegionKey(t.regions[i]) == id;
    case ServiceRow(n) =>
      var p :| p in t.services && ProvidedKey(p) == ServiceId(id, n) && ProvidedAge(p) >= since;
      var i :| 0 <= i < |t.services| && t.services[i] == p;
    case PayloadRow(u) =>
      var c :| c in t.payloads && CarriedBoth(c) == PayloadId(id, u) && CarriedAge(c) >= since;
      var i :| 0 <= i < |t.payloads| && t.payloads[i] == c;
  }

  lemma {:induction false} StillDelivered(y: System, x: string, now: nat, id: string, row: Row, since: nat)
    requires IntakeInv(y) && Enabled(y, Deliver(x, now)) && Held(y.table, id, row, since) && now >= since
    requires !Taken(y, Deliver(x, now), id, row)
    ensures Held(Perform(y, Deliver(x, now)).table, id, row, since)
  {
    hide Table.Valid, Table.Has, Queued, Do, RegionSpec.Enabled, NoWrap, Source.Gone, Describes, Described, Held, OpOf,
      Intake;
    var q := NextPub(y, x);
    HeldIsLive(y.table, id, row, since);
    if y.table.Has(x) {
      PubNames(y.sources[x].run.entries, y.sources[x].Info(), y.sources[x].cursor);
      match row
      case RegionRow => StillRegion(y.table, x, q, now, id, since);
      case ServiceRow(n) => StillService(y.table, x, q, now, id, n, since);
      case PayloadRow(u) => StillPayload(y.table, x, q, now, id, u, since);
    }
  }

  lemma {:induction false} StillSynced(y: System, x: string, k: nat, now: nat, id: string, row: Row, since: nat)
    requires IntakeInv(y) && Enabled(y, SyncDone(x, k, now)) && Held(y.table, id, row, since)
    requires !Taken(y, SyncDone(x, k, now), id, row)
    ensures Held(Perform(y, SyncDone(x, k, now)).table, id, row, since)
  {
    hide Table.Valid, Table.Has, SourceOk, Queued, Do, RegionSpec.Enabled, NoWrap, Source.Gone, Held, CaughtUp, Product,
      Agrees;
    HeldIsLive(y.table, id, row, since);
    if ReplaySucceeds(y, x, k, now) {
      var pr := CaughtUp(y.sources[x], y.syncing[x], x, k, now);
      CaughtUpAgrees(y.sources[x], y.syncing[x], x, k, now);
      AgreedPayloads(pr, y.sources[x].Info(), y.sources[x].Last());
      StillMerged(y.table, pr.region, pr.services, pr.payloads, id, row, since);
    }
  }

  lemma {:induction false} AgreedPayloads(p: ProductState, info: RegionMsg, e: Entry)
    requires Agrees(p, info, e.version, e.after)
    ensures PayloadSet(p.payloads) == e.after.payloads
  {
  }

  lemma {:induction false} StillUnstarted(y: System, x: string, id: string, row: Row, since: nat)
    requires IntakeInv(y) && x in y.syncing && Held(y.table, id, row, since)
    ensures Held(Unstarted(y, x).table, id, row, since)
  {
    hide Unstarted, Table.Valid, Table.Has, FromZero, SourceOk, Queued, Source.Gone;
    UnstartedOutcome(y, x);
  }

  lemma {:induction false} StepHolds(y: System, s: Step, id: string, row: Row, since: nat)
    requires IntakeInv(y) && Enabled(y, s) && Held(y.table, id, row, since)
    requires !Taken(y, s, id, row) && InTime(s, row, since)
    ensures Held(Perform(y, s).table, id, row, since)
  {
    hide Table.Valid, Table.Has, SourceOk, Queued, RegionSpec.Enabled, NoWrap, Delivered, Synced, Unstarted, CheckTimer,
      RobinRoute, Source.Gone, Held, Timeouted, Intake;
    match s
    case Deliver(x, now) => StillDelivered(y, x, now, id, row, since);
    case SyncDone(x, k, now) => StillSynced(y, x, k, now, id, row, since);
    case SyncUnstarted(x) => StillUnstarted(y, x, id, row, since);
    case Route(name) => StillRouted(y.table, name, id, row, since);
    case Timer(now) => StillWaits(y.table, now, id, row, since);
    case _ =>
  }

  lemma {:induction false} StillRouted(t: Table, name: string, id: string, row: Row, since: nat)
    requires Held(t, id, row, since)
    ensures Held(Do(t, OpRobin(name)), id, row, since)
  {
    hide Table.Providers;
    RobinEffect(t, name);
  }

  // Rows over runs

  /** No step takes the row, and the tracker's clock stays within its patience. */
  ghost predicate Left(y: System, ss: seq<Step>, id: string, row: Row, since: nat)
    decreases |ss|
  {
    || ss == []
    || (&& Enabled(y, ss[0]) && !Taken(y, ss[0], id, row) && InTime(ss[0], row, since)
        && Left(Perform(y, ss[0]), ss[1..], id, row, since))
  }

  lemma {:induction false} RunHolds(y: System, ss: seq<Step>, z: System, id: string, row: Row, since: nat)
    requires IntakeInv(y) && Reaches(y, ss, z) && Held(y.table, id, row, since) && Left(y, ss, id, row, since)
    ensures Held(z.table, id, row, since)
    decreases |ss|
  {
    hide IntakeInv, Perform, Enabled, Taken, InTime, Held;
    if ss != [] {
      PerformIntake(y, ss[0]);
      StepHolds(y, ss[0], id, row, since);
      RunHolds(Perform(y, ss[0]), ss[1..], z, id, row, since);
    }
  }

  /** The publication renews the row. */
  predicate Renews(p: Pub, row: Row) {
    match row
    case RegionRow => p.PubRegion?
    case ServiceRow(n) => p.PubService? && p.service.name == n
    case PayloadRow(u) => p.PubPayload? && p.uuid == u
  }

  /** A row that a publication has renewed stays, with that stamp or a later one, whatever else happens:
      until the region removes it or is gone, another region claims the payload, or the tracker has
      waited 30 seconds for a region, 125 seconds for a service or a payload. */
  lemma {:induction false} RenewedStays(y: System, id: string, now: nat, row: Row, ss: seq<Step>, z: System)
    requires IntakeInv(y) && Enabled(y, Deliver(id, now)) && y.table.Has(id) && Renews(NextPub(y, id), row)
    requires Reaches(Perform(y, Deliver(id, now)), ss, z) && Left(Perform(y, Deliver(id, now)), ss, id, row, now)
    ensures Held(z.table, id, row, now)
  {
    hide IntakeInv, Perform, Reaches, Left, Table.Has, Held, Enabled;
    NextIsThere(y, id, now);
    PerformIntake(y, Deliver(id, now));
    DeliverRenews(y, id, now);
    RunHolds(Perform(y, Deliver(id, now)), ss, z, id, row, now);
  }

  lemma {:induction false} NextIsThere(y: System, id: string, now: nat)
    requires Enabled(y, Deliver(id, now))
    ensures id in y.sources && y.sources[id].cursor < |y.sources[id].run.entries|
  {
  }

  // Heartbeats

  predicate Heartbeat(y: System, s: Step, id: string)
    requires Enabled(y, s)
  {
    s.Deliver? && s.id == id && NextPub(y, id).PubRegion?
  }

  /** The region does not withdraw, and when the timer runs at `x` a heartbeat of it was processed less
      than 30 seconds before; `last` is when the latest one was. */
  ghost predicate Punctual(y: System, ss: seq<Step>, id: string, last: nat)
    decreases |ss|
  {
    || ss == []
    || (&& Enabled(y, ss[0]) && !Taken(y, ss[0], id, RegionRow) && InTime(ss[0], RegionRow, last)
        && Punctual(Perform(y, ss[0]), ss[1..], id, if Heartbeat(y, ss[0], id) then ss[0].now else last))
  }

  /** Such a region is never expired. */
  lemma {:induction false} PunctualStays(y: System, ss: seq<Step>, z: System, id: string, last: nat)
    requires IntakeInv(y) && Reaches(y, ss, z) && Held(y.table, id, RegionRow, last) && Punctual(y, ss, id, last)
    ensures z.table.Has(id)
    decreases |ss|
  {
    hide IntakeInv, Perform, Enabled, InTime, Held, Taken, NextPub;
    if ss != [] {
      PerformIntake(y, ss[0]);
      StepHolds(y, ss[0], id, RegionRow, last);
      if Heartbeat(y, ss[0], id) {
        HeartbeatRenews(y, ss[0].now, id, last);
        PunctualStays(Perform(y, ss[0]), ss[1..], z, id, ss[0].now);
      } else {
        PunctualStays(Perform(y, ss[0]), ss[1..], z, id, last);
      }
    } else {
      HeldRegion(y, id, last);
    }
  }

  lemma {:induction false} HeldRegion(y: System, id: string, last: nat)
    requires IntakeInv(y) && Held(y.table, id, RegionRow, last)
    ensures y.table.Has(id)
  {
    hide Table.Has, Held, SourceOk, Queued, Table.Valid;
    HeldIsLive(y.table, id, RegionRow, last);
  }

  lemma {:induction false} HeartbeatRenews(y: System, now: nat, id: string, last: nat)
    requires IntakeInv(y) && Enabled(y, Deliver(id, now)) && Heartbeat(y, Deliver(id, now), id)
    requires Held(y.table, id, RegionRow, last)
    ensures Held(Perform(y, Deliver(id, now)).table, id, RegionRow, now)
  {
    hide Perform, Held, IntakeInv;
    HeldRegion(y, id, last);
    DeliverRenews(y, id, now);
  }

  /** Heartbeats that are sent every second and arrive less than 29 seconds late: at any time, from 29
      seconds after the first, one has arrived in the last 30 seconds. */
  lemma {:induction false} HeartbeatsArrive(sent: nat, arrivals: seq<nat>, x: nat) returns (i: nat)
    requires forall k :: 0 <= k < |arrivals| ==> sent + 1000 * k <= arrivals[k] < sent + 1000 * k + 29000
    requires sent + 29000 <= x < sent + 1000 * |arrivals| + 29000
    ensures i < |arrivals| && arrivals[i] <= x < arrivals[i] + Patience(RegionRow)
  {
    i := (x - sent - 29000) / 1000;
    assert sent + 1000 * i <= arrivals[i];
  }
}
