/** The tracker's copy of a region while it is being synchronised. */
module RegionProduct {
  import opened Types
  import opened Lists
  import opened IndexedList
  import opened ProductSpec

  class RegionProduct {
    var region: Region
    var services: Indexed<Service>
    var payloads: Indexed<Payload>

    ghost predicate Valid()
      reads this
    {
      services.Valid(ServiceKey) && payloads.Valid(PayloadKey)
    }

    ghost function State(): (p: ProductState)
      requires Valid()
      reads this
      ensures p.region == region
    {
      ProductState(region, services.List(), payloads.List())
    }

    constructor ()
      ensures Valid() && State() == EMPTY_PRODUCT
    {
      region := NO_REGION;
      services, payloads := Empty(), Empty();
    }

    /** The builder side: each call is accepted or refused as a whole. */
    method AddRegion(r: Region) returns (result: int)
      requires Valid()
      modifies this
      ensures Valid() && State() == Build(old(State()), CallRegion(r))
      ensures result == if Accepts(old(State()), CallRegion(r)) then 0 else -1
    {
      if region.id == "" || region.id == r.id {
        region := r;
        return 0;
      } else {
        return -1;
      }
    }

    method AddService(id: string, svc: Service) returns (result: int)
      requires Valid()
      modifies this
      ensures Valid() && State() == Build(old(State()), CallService(id, svc))
      ensures result == if Accepts(old(State()), CallService(id, svc)) then 0 else -1
    {
      hide Indexed.Valid, Indexed.Linked, Indexed.List, Indexed.PushBack;
      services.Lookup(ServiceKey, svc.name);
      if region.id == id && svc.name !in services.index {
        services := services.PushBack(ServiceKey, svc.name, svc);
        return 0;
      } else {
        return -1;
      }
    }

    method AddPayload(id: string, pl: Payload) returns (result: int)
      requires Valid()
      modifies this
      ensures Valid() && State() == Build(old(State()), CallPayload(id, pl))
      ensures result == if Accepts(old(State()), CallPayload(id, pl)) then 0 else -1
    {
      hide Indexed.Valid, Indexed.Linked, Indexed.List, Indexed.PushBack;
      payloads.Lookup(PayloadKey, pl.id);
      if region.id == id && pl.id !in payloads.index {
        payloads := payloads.PushBack(PayloadKey, pl.id, pl);
        return 0;
      } else {
        return -1;
      }
    }

    /** The observer side. */
    method OnRegion(r: Region)
      requires Valid()
      modifies this
      ensures Valid() && State() == ProductSpec.OnRegion(old(State()), r)
    {
      if r.id == region.id {
        region := r;
      }
    }

    method OnRmRegion(id: string)
      requires Valid()
      modifies this
      ensures Valid()
      ensures State() == if old(region.id) == id then ProductState(old(region).(id := ""), [], []) else old(State())
    {
      if region.id == id {
        services, payloads := Empty(), Empty();
        region := region.(id := "");
      }
    }

    method OnService(id: string, version: uint32, svc: Service)
      requires Valid()
      modifies this
      ensures Valid() && State() == ProductSpec.OnService(old(State()), id, version, svc)
    {
      hide Indexed.Valid, Indexed.Linked, Indexed.List, Indexed.PushBack, Indexed.MoveToBack;
      if region.id != id {
        return;
      }
      services.Lookup(ServiceKey, svc.name);
      region := region.(version := version);
      if svc.name !in services.index {
        WithoutNone(services.List(), ServiceKey, svc.name);
        services := services.PushBack(ServiceKey, svc.name, svc);
      } else {
        services := services.MoveToBack(ServiceKey, svc.name, svc);
      }
    }

    method OnRmService(id: string, version: uint32, name: string)
      requires Valid()
      modifies this
      ensures Valid() && State() == ProductSpec.OnRmService(old(State()), id, version, name)
    {
      hide Indexed.Valid, Indexed.Linked, Indexed.List, Indexed.Erase;
      if region.id != id {
        return;
      }
      services.Lookup(ServiceKey, name);
      region := region.(version := version);
      if name in services.index {
        services := services.Erase(ServiceKey, name);
      } else {
        WithoutNone(services.List(), ServiceKey, name);
      }
    }

    method OnPayload(id: string, version: uint32, pl: Payload)
      requires Valid()
      modifies this
      ensures Valid() && State() == ProductSpec.OnPayload(old(State()), id, version, pl)
    {
      hide Indexed.Valid, Indexed.Linked, Indexed.List, Indexed.PushBack, Indexed.MoveToBack;
      if region.id != id {
        return;
      }
      payloads.Lookup(PayloadKey, pl.id);
      region := region.(version := version);
      if pl.id !in payloads.index {
        WithoutNone(payloads.List(), PayloadKey, pl.id);
        payloads := payloads.PushBack(PayloadKey, pl.id, pl);
      } else {
        payloads := payloads.MoveToBack(PayloadKey, pl.id, pl);
      }
    }

    method OnRmPayload(id: string, version: uint32, pid: string)
      requires Valid()
      modifies this
      ensures Valid() && State() == ProductSpec.OnRmPayload(old(State()), id, version, pid)
    {
      hide Indexed.Valid, Indexed.Linked, Indexed.List, Indexed.Erase;
      if region.id != id {
        return;
      }
      payloads.Lookup(PayloadKey, pid);
      region := region.(version := version);
      if pid in payloads.index {
        payloads := payloads.Erase(PayloadKey, pid);
      } else {
        WithoutNone(payloads.List(), PayloadKey, pid);
      }
    }

    /** The reader side, least recently updated first. */
    method ReadServices() returns (r: seq<Service>)
      requires Valid()
      ensures r == State().services
    {
      return services.List();
    }

    method ReadPayloads() returns (r: seq<Payload>)
      requires Valid()
      ensures r == State().payloads
    {
      return payloads.List();
    }
  }
}
