/** The region's own table: two lists with their indexes, edited in place. */
module RegionTable {
  import opened Types
  import opened IndexedList
  import opened Publication
  import opened Sweep
  import opened RegionSpec
  import opened Package

  /** One round of the sweep on the nodes: the front node is stamped and moved to the back, and the
      iterator steps on to the node that is then in front, unless there was only that node. */
  lemma {:induction false} SweepMove<V>(ix: Indexed<V>, key: V -> string, age: V -> nat, stamp: (V, nat) -> V,
                                        expired: int, now: nat, maxcount: nat)
    requires ix.Valid(key) && ix.order != [] && maxcount > 0 && age(ix.List()[0]) <= expired
    requires key(stamp(ix.List()[0], now)) == key(ix.List()[0])
    ensures ix.order[0] in ix.order && key(ix.List()[0]) in ix.index
    ensures var x := stamp(ix.List()[0], now);
            var r, it := ix.MoveToBack(key, key(x), x), ix.After(ix.order[0]);
            var rest :=
              if it.None? then Swept(r.List(), []) else SweepList(r.List(), age, stamp, expired, now, maxcount - 1);
            && SweepList(ix.List(), age, stamp, expired, now, maxcount) == Swept(rest.list, [x] + rest.out)
            && (it.Some? ==>
                  r.order != [] && it == Some(r.order[0]) && r.order[0] in r.nodes
                  && r.nodes[r.order[0]] == r.List()[0])
  {
    hide Indexed.Valid, Indexed.Linked, Indexed.MoveToBack, Indexed.After, Indexed.List, SweepList;
    var x := stamp(ix.List()[0], now);
    ix.FrontNode();
    SweepRound(ix.List(), age, stamp, expired, now, maxcount);
    ix.FrontRotation(key, x);
    ix.MoveToBack(key, key(x), x).FrontNode();
  }

  class RIRegionTable {
    var region: Region
    var services: Indexed<Service>
    var payloads: Indexed<Payload>
    var observed: bool
    var active: bool
    var published: seq<Pub>
    var secService: nat
    var secPayload: nat

    ghost predicate Valid()
      reads this
    {
      && services.Valid(ServiceKey)
      && payloads.Valid(PayloadKey)
    }

    ghost function State(): RegionState
      requires Valid()
      reads this
    {
      RegionState(region, services.List(), payloads.List(), observed, active, published)
    }

    /** The region record comes from the configuration; version and stamp start at zero. */
    constructor (uuid: string, idc: string, bus: EndPoint, snapshot: EndPoint)
      ensures Valid()
      ensures State() == RegionState(Region(uuid, 0, idc, bus, snapshot, 0), [], [], false, false, [])
      ensures secService == 60 && secPayload == 60
    {
      region := Region(uuid, 0, idc, bus, snapshot, 0);
      services := Empty();
      payloads := Empty();
      observed, active := false, false;
      published := [];
      secService, secPayload := 60, 60;
    }

    method AddService(svc: Service) returns (result: int)
      requires Valid()
      modifies this`region, this`services, this`published
      ensures Valid()
      ensures State() == AddedService(old(State()), svc)
      ensures result == if Mutates(old(State()), Event.AddService(svc)) then 0 else -1
    {
      hide Indexed.Valid, Indexed.Linked, Indexed.PushBack, Indexed.Erase;
      services.Lookup(ServiceKey, svc.name);
      if !svc.Good() {
        return -1;
      }
      if svc.name !in services.index {
        region := region.(version := Next(region.version));
        services := services.PushBack(ServiceKey, svc.name, svc);
        if observed {
          published := published + [PubService(region.version, svc.Wire())];
        }
        return 0;
      } else {
        return -1;
      }
    }

    method RmService(name: string) returns (result: int)
      requires Valid()
      modifies this`region, this`services, this`published
      ensures Valid()
      ensures State() == RemovedService(old(State()), name)
      ensures result == if Mutates(old(State()), Event.RmService(name)) then 0 else -1
    {
      hide Indexed.Valid, Indexed.Linked, Indexed.PushBack, Indexed.Erase;
      services.Lookup(ServiceKey, name);
      if name in services.index {
        services := services.Erase(ServiceKey, name);
        region := region.(version := Next(region.version));
        if observed {
          published := published + [PubRmService(region.version, name)];
        }
        return 0;
      } else {
        return -1;
      }
    }

    method AddPayload(pl: Payload) returns (result: int)
      requires Valid()
      modifies this`region, this`payloads, this`published
      ensures Valid()
      ensures State() == AddedPayload(old(State()), pl)
      ensures result == if Mutates(old(State()), Event.AddPayload(pl)) then 0 else -1
    {
      hide Indexed.Valid, Indexed.Linked, Indexed.PushBack, Indexed.Erase;
      payloads.Lookup(PayloadKey, pl.id);
      if !pl.Good() {
        return -1;
      }
      if pl.id !in payloads.index {
        region := region.(version := Next(region.version));
        payloads := payloads.PushBack(PayloadKey, pl.id, pl);
        if observed {
          published := published + [PubPayload(region.version, pl.id)];
        }
        return 0;
      } else {
        return -1;
      }
    }

    method RmPayload(id: string) returns (result: int)
      requires Valid()
      modifies this`region, this`payloads, this`published
      ensures Valid()
      ensures State() == RemovedPayload(old(State()), id)
      ensures result == if Mutates(old(State()), Event.RmPayload(id)) then 0 else -1
    {
      hide Indexed.Valid, Indexed.Linked, Indexed.PushBack, Indexed.Erase;
      payloads.Lookup(PayloadKey, id);
      if id in payloads.index {
        payloads := payloads.Erase(PayloadKey, id);
        region := region.(version := Next(region.version));
        if observed {
          published := published + [PubRmPayload(region.version, id)];
        }
        return 0;
      } else {
        return -1;
      }
    }

    method UpdateTimeoutedService(timeout: nat, maxcount: nat, now: nat) returns (svcs: seq<Service>)
      requires Valid()
      modifies this`services
      ensures Valid()
      ensures Swept(services.List(), svcs)
           == SweepList(old(services.List()), ServiceAge, StampService, Sub64(now, timeout), now, maxcount)
    {
      hide Indexed.Valid, Indexed.Linked, Indexed.MoveToBack, Indexed.After, Indexed.List, SweepList;
      services.FrontNode();
      svcs := [];
      var expired := Sub64(now, timeout);
      ghost var all := SweepList(services.List(), ServiceAge, StampService, expired, now, maxcount);
      SweepRound(services.List(), ServiceAge, StampService, expired, now, maxcount);
      var count := 0;
      var it := services.Begin();
      while count < maxcount && it.Some?
        invariant count <= maxcount && Valid()
        invariant it.Some? ==>
                    services.order != [] && it.value == services.order[0] && it.value in services.nodes
                    && services.nodes[it.value] == services.List()[0]
        invariant var rest := if it.None? then Swept(services.List(), [])
                              else SweepList(services.List(), ServiceAge, StampService, expired, now, maxcount - count);
                  all == Swept(rest.list, svcs + rest.out)
      {
        var svc := services.nodes[it.value];
        if svc.timeval <= expired {
          SweepMove(services, ServiceKey, ServiceAge, StampService, expired, now, maxcount - count);
          svc := svc.(timeval := now);
          it := services.After(it.value);
          svcs := svcs + [svc];
          services := services.MoveToBack(ServiceKey, svc.name, svc);
        } else {
          break;
        }
        count := count + 1;
      }
      SweepRound(services.List(), ServiceAge, StampService, expired, now, maxcount - count);
    }

    method UpdateTimeoutedPayload(timeout: nat, maxcount: nat, now: nat) returns (pls: seq<Payload>)
      requires Valid()
      modifies this`payloads
      ensures Valid()
      ensures Swept(payloads.List(), pls)
           == SweepList(old(payloads.List()), PayloadAge, StampPayload, Sub64(now, timeout), now, maxcount)
    {
      hide Indexed.Valid, Indexed.Linked, Indexed.MoveToBack, Indexed.After, Indexed.List, SweepList;
      payloads.FrontNode();
      pls := [];
      var expired := Sub64(now, timeout);
      ghost var all := SweepList(payloads.List(), PayloadAge, StampPayload, expired, now, maxcount);
      SweepRound(payloads.List(), PayloadAge, StampPayload, expired, now, maxcount);
      var count := 0;
      var it := payloads.Begin();
      while count < maxcount && it.Some?
        invariant count <= maxcount && Valid()
        invariant it.Some? ==>
                    payloads.order != [] && it.value == payloads.order[0] && it.value in payloads.nodes
                    && payloads.nodes[it.value] == payloads.List()[0]
        invariant var rest := if it.None? then Swept(payloads.List(), [])
                              else SweepList(payloads.List(), PayloadAge, StampPayload, expired, now, maxcount - count);
                  all == Swept(rest.list, pls + rest.out)
      {
        var pl := payloads.nodes[it.value];
        if pl.timeval <= expired {
          SweepMove(payloads, PayloadKey, PayloadAge, StampPayload, expired, now, maxcount - count);
          pl := pl.(timeval := now);
          it := payloads.After(it.value);
          pls := pls + [pl];
          payloads := payloads.MoveToBack(PayloadKey, pl.id, pl);
        } else {
          break;
        }
        count := count + 1;
      }
      SweepRound(payloads.List(), PayloadAge, StampPayload, expired, now, maxcount - count);
    }

    method PubRepeated(now: nat, now': nat)
      requires Valid() && active && secPayload > 0
      modifies this`services, this`payloads, this`published
      ensures Valid()
      ensures State() == Repeated(old(State()), secService, secPayload, now, now')
    {
      hide Indexed.Valid, Indexed.Linked, Indexed.List, SweepList, ServicePubs, PayloadPubs;
      ghost var s := State();
      if observed {
        var svclist := UpdateTimeoutedService(secService * 1000, SERVICE_MAXCOUNT, now);
        published := published + ServicePubs(region.version, svclist);
        var maxcount := PayloadBudget(|payloads.order|, secPayload);
        var pldlist := UpdateTimeoutedPayload(secPayload * 1000, maxcount, now');
        published := published + PayloadPubs(region.version, pldlist);
      }
    }

    method PubRegionRecord()
      requires Valid() && active
      modifies this`published
      ensures Valid()
      ensures State() == old(State()).Publish([PubRegion(region.Wire())])
    {
      if observed {
        published := published + [PubRegion(region.Wire())];
      }
    }

    /** `observer` says whether the caller passes one. */
    method Start(observer: bool) returns (result: int)
      requires Valid()
      modifies this`observed, this`active, this`published
      ensures Valid()
      ensures State() == Started(old(State()), observer)
      ensures result == if old(active) then -1 else 0
    {
      if active {
        return -1;
      }
      active := true;
      observed := observer;
      if observed {
        published := published + [PubRegion(region.Wire())];
      }
      return 0;
    }

    method Stop()
      requires Valid()
      modifies this`active, this`published
      ensures Valid()
      ensures State() == Stopped(old(State()))
    {
      if active {
        active := false;
        if observed {
          published := published + [PubRmRegion];
        }
      }
    }

    /** The package lists the services and then the payloads, each in list order. */
    method BuildSnapshot() returns (package: seq<Item>)
      requires Valid()
      ensures package == PackageOf([Group(region, State().services, State().payloads)])
    {
      package := [SnapshotBegin, RegionBegin(region.Wire())];
      ghost var group := Group(region, State().services, State().payloads);
      var it := 0;
      while it < |services.order|
        invariant it <= |services.order|
        invariant package == [SnapshotBegin, RegionBegin(region.Wire())] + ServiceItems(services.List()[..it])
      {
        package := package + [ServiceItem(services.nodes[services.order[it]].Wire())];
        ServiceItemsAppend(services.List()[..it], services.List()[it]);
        it := it + 1;
      }
      it := 0;
      while it < |payloads.order|
        invariant it <= |payloads.order|
        invariant package ==
                  [SnapshotBegin, RegionBegin(region.Wire())] + ServiceItems(services.List())
                  + PayloadItems(payloads.List()[..it])
      {
        package := package + [PayloadItem(payloads.nodes[payloads.order[it]].id)];
        PayloadItemsAppend(payloads.List()[..it], payloads.List()[it]);
        it := it + 1;
      }
      package := package + [RegionEnd(region.id, region.version)];
      package := package + [SnapshotEnd];
      SingleGroup(group);
    }
  }
}
