/** The snapshot service: a map of workers, each with what is left of its package. */
module SnapshotService {
  import opened Types
  import opened Package
  import opened ReaderSpec
  import opened Sweep
  import opened ServerSpec

  /** The router socket: what it has sent to whom, and how many more sends it will take. */
  class Router {
    var log: seq<(string, Msg)>
    var good: nat

    constructor (good: nat)
      ensures log == [] && this.good == good
    {
      log := [];
      this.good := good;
    }

    method Send(requester: string, msg: Msg) returns (ok: bool)
      modifies this
      ensures ok == (old(good) > 0)
      ensures log == old(log) + if ok then [(requester, msg)] else []
      ensures good == if ok then old(good) - 1 else 0
    {
      if good == 0 {
        return false;
      }
      log := log + [(requester, msg)];
      good := good - 1;
      return true;
    }
  }

  function Addressed(requester: string, ms: seq<Msg>): (r: seq<(string, Msg)>)
    ensures |r| == |ms|
  {
    seq(|ms|, i requires 0 <= i < |ms| => (requester, ms[i]))
  }

  lemma {:induction false} AddressedAppend(requester: string, a: seq<Msg>, b: seq<Msg>)
    ensures Addressed(requester, a + b) == Addressed(requester, a) + Addressed(requester, b)
  {
  }

  lemma {:induction false} AddressedOne(requester: string, m: Msg)
    ensures Addressed(requester, [m]) == [(requester, m)] && Addressed(requester, []) == []
  {
  }

  /** Sends up to `count` items from the front of a worker's package.  If a send fails its item is
      lost and the result says that nothing is left; otherwise it is the number of items left. */
  method SendItems(worker: Worker, requester: string, count: nat, now: nat, sock: Router)
    returns (worker': Worker, left: nat)
    modifies sock
    ensures var n := Min(count, |worker.left|);
            if old(sock.good) < n then
              && left == 0 && sock.good == 0
              && worker' == Worker(worker.left[old(sock.good) + 1..], worker.lastSend)
              && sock.log == old(sock.log) + Addressed(requester, ItemMsgs(worker.left[..old(sock.good)]))
            else
              && left == |worker'.left| && sock.good == old(sock.good) - n
              && worker' == Worker(worker.left[n..], now)
              && sock.log == old(sock.log) + Addressed(requester, ItemMsgs(worker.left[..n]))
  {
    var items := worker.left;
    ghost var n := Min(count, |items|);
    var c := 0;
    while c < count && items != []
      invariant c <= n && c <= old(sock.good)
      invariant items == worker.left[c..]
      invariant sock.good == old(sock.good) - c
      invariant sock.log == old(sock.log) + Addressed(requester, ItemMsgs(worker.left[..c]))
      decreases |items|
    {
      var p := items[0];
      items := items[1..];
      var ok := sock.Send(requester, ItemMsg(p));
      if !ok {
        return Worker(items, worker.lastSend), 0;
      }
      assert ItemMsgs(worker.left[..c + 1]) == ItemMsgs(worker.left[..c]) + [ItemMsg(p)];
      AddressedAppend(requester, ItemMsgs(worker.left[..c]), [ItemMsg(p)]);
      AddressedOne(requester, ItemMsg(p));
      c := c + 1;
    }
    return Worker(items, now), |items|;
  }

  class SnapshotService {
    const capacity: nat
    const periodCount: nat
    const timeout: nat
    var workers: map<string, Worker>

    constructor (capacity: nat, periodCount: nat, timeout: nat)
      ensures workers == map[]
      ensures this.capacity == capacity && this.periodCount == periodCount && this.timeout == timeout
    {
      this.capacity, this.periodCount, this.timeout := capacity, periodCount, timeout;
      workers := map[];
    }

    /** A batch, and a request to signal back if something is left; otherwise the worker goes. */
    method SendPart(worker: Worker, requester: string, sock: Router, now: nat)
      modifies this, sock
      ensures var a := SendBatch(old(workers), requester, worker.left, periodCount, now, old(sock.good));
              && workers == a.workers
              && sock.log == old(sock.log) + Addressed(requester, a.sent)
    {
      hide Addressed, ItemMsgs;
      ghost var good, n := sock.good, Min(periodCount, |worker.left|);
      var worker', left := SendItems(worker, requester, periodCount, now, sock);
      if left == 0 {
        workers := workers - {requester};
        assert good >= n ==> worker.left[..n] == worker.left;
      } else {
        workers := workers[requester := worker'];
        var ok := sock.Send(requester, SyncSignalReq);
        AddressedAppend(requester, ItemMsgs(worker.left[..n]), if good > n then [SyncSignalReq] else []);
        AddressedOne(requester, SyncSignalReq);
      }
    }

    /** `package` is what the snapshotable builds when it is asked. */
    method OnSnapshotReq(requester: string, package: seq<Item>, sock: Router, now: nat)
      modifies this, sock
      ensures var a :=
                ServerSpec.OnSnapshotReq(old(workers), requester, package, capacity, periodCount, now, old(sock.good));
              && workers == a.workers
              && sock.log == old(sock.log) + Addressed(requester, a.sent)
    {
      hide Addressed, SendBatch;
      AddressedOne(requester, SnapshotRep(-1));
      AddressedOne(requester, SnapshotRep(0));
      if requester in workers {
        var ok := sock.Send(requester, SnapshotRep(-1));
      } else if |workers| < capacity {
        var ok := sock.Send(requester, SnapshotRep(0));
        if ok {
          AddressedAppend(requester, [SnapshotRep(0)],
                          SendBatch(workers, requester, package, periodCount, now, sock.good).sent);
          SendPart(Worker(package, 0), requester, sock, now);
        }
      } else {
        var ok := sock.Send(requester, SnapshotRep(-1));
      }
    }

    method OnSyncSignal(requester: string, sock: Router, now: nat)
      modifies this, sock
      ensures var a := ServerSpec.OnSyncSignal(old(workers), requester, periodCount, now, old(sock.good));
              && workers == a.workers
              && sock.log == old(sock.log) + Addressed(requester, a.sent)
    {
      hide Addressed, SendBatch;
      AddressedOne(requester, SyncSignalReq);
      if requester in workers {
        SendPart(workers[requester], requester, sock, now);
      }
    }

    method OnTimer(now: nat)
      modifies this
      ensures workers == ServerSpec.OnTimer(old(workers), timeout, now)
    {
      var todo := workers.Keys;
      while todo != {}
        invariant todo <= workers.Keys
        invariant forall r :: r in workers ==> r in old(workers) && workers[r] == old(workers)[r]
        invariant forall r :: r in old(workers) ==>
                                (r in workers <==> r in todo || Sub64(now, old(workers)[r].lastSend) <= timeout)
        decreases |todo|
      {
        var r :| r in todo;
        todo := todo - {r};
        if Sub64(now, workers[r].lastSend) > timeout {
          workers := workers - {r};
        }
      }
    }
  }
}
