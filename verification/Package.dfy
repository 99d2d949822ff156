/** The items of a snapshot, and the package that holds a list of regions. */
module Package {
  import opened Types

  datatype Item =
    | SnapshotBegin
    | RegionBegin(region: RegionMsg)
    | ServiceItem(service: ServiceMsg)
    | PayloadItem(uuid: string)
    | RegionEnd(id: string, version: uint32)
    | SnapshotEnd

  /** One region with its services and payloads, in list order. */
  datatype Group = Group(region: Region, services: seq<Service>, payloads: seq<Payload>)

  function ServiceItems(s: seq<Service>): (r: seq<Item>)
    ensures |r| == |s|
  {
    seq(|s|, i requires 0 <= i < |s| => ServiceItem(s[i].Wire()))
  }

  function PayloadItems(s: seq<Payload>): (r: seq<Item>)
    ensures |r| == |s|
  {
    seq(|s|, i requires 0 <= i < |s| => PayloadItem(s[i].id))
  }

  function GroupItems(g: Group): seq<Item> {
    [RegionBegin(g.region.Wire())] + ServiceItems(g.services) + PayloadItems(g.payloads)
    + [RegionEnd(g.region.id, g.region.version)]
  }

  function GroupsItems(gs: seq<Group>): seq<Item> {
    if gs == [] then [] else GroupItems(gs[0]) + GroupsItems(gs[1..])
  }

  function PackageOf(gs: seq<Group>): seq<Item> {
    [SnapshotBegin] + GroupsItems(gs) + [SnapshotEnd]
  }

  lemma {:induction false} ServiceItemsAppend(s: seq<Service>, x: Service)
    ensures ServiceItems(s + [x]) == ServiceItems(s) + [ServiceItem(x.Wire())]
  {
  }

  lemma {:induction false} PayloadItemsAppend(s: seq<Payload>, x: Payload)
    ensures PayloadItems(s + [x]) == PayloadItems(s) + [PayloadItem(x.id)]
  {
  }

  lemma {:induction false} GroupsItemsAppend(gs: seq<Group>, g: Group)
    ensures GroupsItems(gs + [g]) == GroupsItems(gs) + GroupItems(g)
  {
    if gs == [] {
      assert gs + [g] == [g];
    } else {
      assert (gs + [g])[1..] == gs[1..] + [g];
      GroupsItemsAppend(gs[1..], g);
    }
  }

  lemma {:induction false} SingleGroup(g: Group)
    ensures PackageOf([g]) == [SnapshotBegin, RegionBegin(g.region.Wire())] + ServiceItems(g.services)
                              + PayloadItems(g.payloads) + [RegionEnd(g.region.id, g.region.version)] + [SnapshotEnd]
  {
    assert GroupsItems([g]) == GroupItems(g) + GroupsItems([]);
  }

  function ServiceCount(gs: seq<Group>): nat {
    if gs == [] then 0 else |gs[0].services| + ServiceCount(gs[1..])
  }

  function PayloadCount(gs: seq<Group>): nat {
    if gs == [] then 0 else |gs[0].payloads| + PayloadCount(gs[1..])
  }

  /** Two items frame the package and two frame each region. */
  lemma {:induction false} PackageLength(gs: seq<Group>)
    ensures |PackageOf(gs)| == 2 + 2 * |gs| + ServiceCount(gs) + PayloadCount(gs)
  {
    if gs != [] {
      PackageLength(gs[1..]);
    }
  }
}
