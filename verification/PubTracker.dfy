/** The intake: a factory for each region that is being synchronised. */
module PubTracker {
  import opened Types
  import opened Publication
  import opened ProductSpec
  import RegionProduct
  import opened SubCacher
  import opened RegionFactory
  import TrackerSpec
  import opened TrackerTable
  import opened Replication

  /** What a publication other than an announcement does to the queues. */
  lemma {:induction false} NextIntake(queues: map<string, seq<Update>>, capacity: nat, id: string, p: Pub, now: nat)
    requires !p.PubRegion? && !p.PubRmRegion?
    ensures Intake(queues, capacity, id, p, now)
         == if id in queues then queues[id := queues[id] + [Received(p, now)]] else queues
  {
  }

  class PubTracker {
    var table: RITrackerTable?
    var capacity: nat
    var factories: map<string, RegionFactory>
    /** The queue of each factory, and everything the factories own. */
    ghost var queues: map<string, seq<Update>>
    ghost var Repr: set<object>

    /** The factories of these regions are at work, each on its own region. */
    ghost predicate Runs(ids: set<string>): (runs: bool)
      reads this, Repr
      ensures runs ==> this in Repr
      ensures runs ==> forall id :: id in ids ==>
                                      id in factories && factories[id] in Repr && factories[id].product in Repr
                                      && factories[id].subcacher in Repr
    {
      && this in Repr && (table != null ==> table !in Repr)
      && queues.Keys == factories.Keys
      && forall id :: id in ids ==>
                        && id in factories
                        && factories[id] in Repr && factories[id].product in Repr && factories[id].subcacher in Repr
                        && factories[id].Serves(id) && factories[id].subcacher.updates == queues[id]
    }

    ghost predicate Valid()
      reads this, Repr
    {
      Runs(factories.Keys)
    }

    /** The object that a publication of the region changes. */
    function QueueOf(id: string): set<object>
      reads this, factories.Values
    {
      if id in factories && factories[id].subcacher != null then {factories[id].subcacher} else {}
    }

    constructor ()
      ensures Valid() && factories == map[] && queues == map[] && capacity == 4 && table == null
    {
      table, capacity, factories, queues := null, 4, map[], map[];
      Repr := {this};
    }

    method Start(t: RITrackerTable, capacity: nat) returns (result: int)
      requires Valid() && t !in Repr
      modifies this
      ensures Valid() && queues == old(queues)
      ensures if old(factories) == map[] then result == 0 && table == t && this.capacity == capacity
              else result == -1 && unchanged(this)
    {
      if factories == map[] {
        table := t;
        this.capacity := capacity;
        return 0;
      }
      return -1;
    }

    lemma {:induction false} SameSize()
      requires queues.Keys == factories.Keys
      ensures |queues| == |factories|
    {
      assert |queues.Keys| == |queues| && |factories.Keys| == |factories|;
    }

    /** An announcement is queued, or starts a synchronisation if there is room. */
    method OnRegion(reg: Region)
      requires Valid()
      modifies this`factories, this`queues, this`Repr, QueueOf(reg.id)
      ensures Valid()
      ensures queues == Intake(old(queues), capacity, reg.id, PubRegion(reg.Wire()), reg.timeval)
    {
      hide RegionFactory.Serves;
      SameSize();
      if reg.id in factories {
        QueueRegion(reg);
      } else if |factories| < capacity {
        Open(reg);
      }
    }

    method Open(reg: Region)
      requires Valid() && reg.id !in factories
      modifies this`factories, this`queues, this`Repr
      ensures Valid()
      ensures queues == old(queues)[reg.id := [UpdateRegion(reg)]]
    {
      hide Runs, RegionProduct.RegionProduct.Valid;
      var factory := new RegionFactory();
      var started := factory.Start(reg);
      if started == 0 {
        Adopt(reg.id, factory);
      }
    }

    method Adopt(id: string, factory: RegionFactory)
      requires Valid() && id !in factories && factory.Serves(id)
      modifies this`factories, this`queues, this`Repr
      ensures Valid() && queues == old(queues)[id := factory.subcacher.updates]
    {
      hide RegionProduct.RegionProduct.Valid;
      factories := factories[id := factory];
      queues := queues[id := factory.subcacher.updates];
      Repr := Repr + {factory, factory.product, factory.subcacher};
    }

    method QueueRegion(reg: Region)
      requires Valid() && reg.id in factories
      modifies this`queues, QueueOf(reg.id)
      ensures Valid()
      ensures queues == old(queues)[reg.id := old(queues)[reg.id] + [UpdateRegion(reg)]]
    {
      hide RegionProduct.RegionProduct.Valid;
      factories[reg.id].subcacher.OnRegion(reg);
      queues := queues[reg.id := queues[reg.id] + [UpdateRegion(reg)]];
    }

    method OnRmRegion(id: string)
      requires Valid()
      modifies this`factories, this`queues
      ensures Valid()
      ensures queues == Intake(old(queues), capacity, id, PubRmRegion, 0)
    {
      hide RegionFactory.Serves;
      if id in factories {
        factories := factories - {id};
        queues := queues - {id};
      }
    }

    method OnService(id: string, version: uint32, svc: Service)
      requires Valid()
      modifies this`queues, QueueOf(id)
      ensures Valid()
      ensures queues == Intake(old(queues), capacity, id, PubService(version, svc.Wire()), svc.timeval)
    {
      hide RegionProduct.RegionProduct.Valid, Intake;
      NextIntake(queues, capacity, id, PubService(version, svc.Wire()), svc.timeval);
      if id in factories {
        factories[id].subcacher.OnService(id, version, svc);
        queues := queues[id := queues[id] + [UpdateService(version, svc)]];
      }
    }

    method OnRmService(id: string, version: uint32, name: string)
      requires Valid()
      modifies this`queues, QueueOf(id)
      ensures Valid()
      ensures queues == Intake(old(queues), capacity, id, PubRmService(version, name), 0)
    {
      hide RegionProduct.RegionProduct.Valid, Intake;
      NextIntake(queues, capacity, id, PubRmService(version, name), 0);
      if id in factories {
        factories[id].subcacher.OnRmService(id, version, name);
        queues := queues[id := queues[id] + [RmService(version, name)]];
      }
    }

    method OnPayload(id: string, version: uint32, pl: Payload)
      requires Valid()
      modifies this`queues, QueueOf(id)
      ensures Valid()
      ensures queues == Intake(old(queues), capacity, id, PubPayload(version, pl.id), pl.timeval)
    {
      hide RegionProduct.RegionProduct.Valid, Intake;
      NextIntake(queues, capacity, id, PubPayload(version, pl.id), pl.timeval);
      if id in factories {
        factories[id].subcacher.OnPayload(id, version, pl);
        queues := queues[id := queues[id] + [UpdatePayload(version, pl)]];
      }
    }

    method OnRmPayload(id: string, version: uint32, pid: string)
      requires Valid()
      modifies this`queues, QueueOf(id)
      ensures Valid()
      ensures queues == Intake(old(queues), capacity, id, PubRmPayload(version, pid), 0)
    {
      hide RegionProduct.RegionProduct.Valid, Intake;
      NextIntake(queues, capacity, id, PubRmPayload(version, pid), 0);
      if id in factories {
        factories[id].subcacher.OnRmPayload(id, version, pid);
        queues := queues[id := queues[id] + [RmPayload(version, pid)]];
      }
    }

    /** The synchronisation of a region is over: its product is merged if there is one, and the
        factory goes either way. */
    method OnFactoryCompleted(id: string, err: int)
      requires Valid() && id in factories && factories[id].Serves(id)
      requires table != null ==> table.Valid()
      modifies Repr, table
      ensures Valid() && table == old(table) && queues == old(queues) - {id}
      ensures table != null ==> table.Valid()
      ensures table != null ==>
                var p := old(factories[id].product.State());
                var r := Replay(old(queues)[id], p.region.version);
                var q := ObserveAll(p, id, r.tail);
                table.View() ==
                if err == 0 && r.result == 0 then
                  TrackerSpec.Merge(old(table.View()), q.region, q.services, q.payloads)
                else old(table.View())
    {
      hide Runs, RegionFactory.Serves, RegionProduct.RegionProduct.Valid, RegionProduct.RegionProduct.State,
        RITrackerTable.Valid, RITrackerTable.View, Replay, ObserveAll, TrackerSpec.Merge;
      var product := Complete(id, err);
      if product != null && table != null {
        MergeProduct(id, product);
      }
      EraseFactory(id);
    }

    method Complete(id: string, err: int) returns (product: RegionProduct.RegionProduct?)
      requires Valid() && id in factories && factories[id].Serves(id)
      modifies factories[id], factories[id].product, factories[id].subcacher
      ensures Runs(factories.Keys - {id})
      ensures var p := old(factories[id].product.State());
              var r := Replay(old(queues)[id], p.region.version);
              && (product == null <==> err != 0 || r.result != 0)
              && (product != null ==> product.Valid() && product.State() == ObserveAll(p, id, r.tail))
    {
      hide RegionProduct.RegionProduct.Valid, RegionProduct.RegionProduct.State, Replay, ObserveAll;
      var regId;
      regId, product := factories[id].OnSnapshotCompleted(err);
    }

    method MergeProduct(id: string, product: RegionProduct.RegionProduct)
      requires Runs(factories.Keys - {id}) && product.Valid() && table != null && table.Valid()
      modifies table
      ensures Runs(factories.Keys - {id}) && table.Valid()
      ensures var q := product.State();
              table.View() == TrackerSpec.Merge(old(table.View()), q.region, q.services, q.payloads)
    {
      hide RegionFactory.Serves, RegionProduct.RegionProduct.Valid, RegionProduct.RegionProduct.State,
        RITrackerTable.Valid, RITrackerTable.View, TrackerSpec.Merge;
      var services := product.ReadServices();
      var payloads := product.ReadPayloads();
      var merged := table.Merge(product.region, services, payloads);
    }

    method EraseFactory(id: string)
      requires Runs(factories.Keys - {id}) && id in factories
      modifies this`factories, this`queues
      ensures Valid() && queues == old(queues) - {id}
    {
      hide RegionFactory.Serves;
      factories := factories - {id};
      queues := queues - {id};
    }
  }
}
