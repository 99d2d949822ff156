/** One synchronisation: the product that a snapshot fills and the queue of publications. */
module RegionFactory {
  import opened Types
  import opened Publication
  import opened ProductSpec
  import opened RegionProduct
  import opened SnapshotClient
  import opened SubCacher

  class RegionFactory {
    var client: SnapshotClient?
    var product: RegionProduct?
    var subcacher: RegionSubCacher?
    var regionId: string

    ghost predicate Running()
      reads this, product, subcacher
    {
      && client != null && product != null && subcacher != null
      && product.Valid() && subcacher.regionId == regionId
    }

    /** It synchronises this region. */
    ghost predicate Serves(id: string)
      reads this, product, subcacher
    {
      Running() && regionId == id
    }

    ghost predicate Stopped()
      reads this
    {
      client == null && product == null && subcacher == null && regionId == ""
    }

    constructor ()
      ensures Stopped()
    {
      client, product, subcacher, regionId := null, null, null, "";
    }

    /** A new client can always be started: whether it reaches the region only shows later. */
    method Start(region: Region) returns (result: int)
      modifies this
      ensures result == if old(client) != null then -1 else 0
      ensures result == -1 ==> unchanged(this)
      ensures result == 0 ==>
                && Running() && regionId == region.id
                && fresh(client) && client.Runs(region.snapshot.address)
                && fresh(product) && product.State() == EMPTY_PRODUCT
                && fresh(subcacher) && subcacher.updates == [UpdateRegion(region)]
    {
      if client != null {
        return -1;
      }
      product := new RegionProduct();
      client := new SnapshotClient();
      var started := client.Start(region.snapshot.address);
      if started == -1 {
        assert false;
      }
      subcacher := new RegionSubCacher(region);
      regionId := region.id;
      return 0;
    }

    method Stop()
      modifies this
      ensures Stopped()
    {
      client, product, subcacher, regionId := null, null, null, "";
    }

    /** The snapshot is there, or could not be had: the queue is replayed on the product, which is
        handed over exactly when both worked. */
    method OnSnapshotCompleted(err: int) returns (id: string, done: RegionProduct?)
      requires Running()
      modifies this, product, subcacher
      ensures Stopped() && id == old(regionId) && old(product).Valid()
      ensures var r := Replay(old(subcacher.updates), old(product.region.version));
              && (done == null <==> err != 0 || r.result != 0)
              && (done != null ==>
                    && done == old(product) && done.Valid()
                    && done.State() == ObserveAll(old(product.State()), old(regionId), r.tail))
    {
      hide RegionProduct.Valid, RegionProduct.State, Replay;
      done := null;
      if err == 0 {
        var version := product.region.version;
        var presented := subcacher.Present(version, product);
        if presented == 0 {
          done := product;
        }
      }
      id := regionId;
      Stop();
    }
  }
}
