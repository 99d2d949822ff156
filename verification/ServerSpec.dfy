/** The snapshot service on values: a package per waiting requester, sent in batches. */
module ServerSpec {
  import opened Types
  import opened Package
  import opened ReaderSpec
  import opened Sweep

  /** What is left of a package and when its last batch was sent. */
  datatype Worker = Worker(left: seq<Item>, lastSend: nat)

  function ItemMsgs(items: seq<Item>): (ms: seq<Msg>)
    ensures |ms| == |items|
  {
    seq(|items|, i requires 0 <= i < |items| => ItemMsg(items[i]))
  }

  /** The workers after an event and the messages sent to its requester. */
  datatype Answer = Answer(workers: map<string, Worker>, sent: seq<Msg>)

  /** A batch of at most `period` items, and a request to signal back if something is left.
      `good` is the number of sends that succeed before one fails: an item that cannot be sent is
      lost, and the worker is dropped as if it were done. */
  function SendBatch(ws: map<string, Worker>, requester: string, left: seq<Item>, period: nat, now: nat,
                     good: nat): Answer {
    var n := Min(period, |left|);
    if good < n then Answer(ws - {requester}, ItemMsgs(left[..good]))
    else if n == |left| then Answer(ws - {requester}, ItemMsgs(left))
    else
      Answer(ws[requester := Worker(left[n..], now)],
             ItemMsgs(left[..n]) + if good > n then [SyncSignalReq] else [])
  }

  /** A requester that already has a worker, or comes when all places are taken, is refused. */
  function OnSnapshotReq(ws: map<string, Worker>, requester: string, package: seq<Item>, capacity: nat, period: nat,
                         now: nat, good: nat): Answer {
    if good == 0 then Answer(ws, [])
    else if requester in ws || |ws| >= capacity then Answer(ws, [SnapshotRep(-1)])
    else
      var a := SendBatch(ws, requester, package, period, now, good - 1);
      Answer(a.workers, [SnapshotRep(0)] + a.sent)
  }

  function OnSyncSignal(ws: map<string, Worker>, requester: string, period: nat, now: nat, good: nat): Answer {
    if requester in ws then SendBatch(ws, requester, ws[requester].left, period, now, good) else Answer(ws, [])
  }

  /** Workers that have waited longer than the timeout are dropped. */
  function OnTimer(ws: map<string, Worker>, timeout: nat, now: nat): map<string, Worker> {
    map r | r in ws && Sub64(now, ws[r].lastSend) <= timeout :: ws[r]
  }

  /** Exactly: a first batch goes to a requester without a worker while there is a free place, behind the
      reply; anybody else is refused. */
  lemma {:induction false} RequestEffect(ws: map<string, Worker>, requester: string, package: seq<Item>, capacity: nat,
                                         period: nat, now: nat, good: nat)
    ensures var a := OnSnapshotReq(ws, requester, package, capacity, period, now, good);
            if good == 0 then a.workers == ws && a.sent == []
            else if requester in ws || |ws| >= capacity then a.workers == ws && a.sent == [SnapshotRep(-1)]
            else
              && a.sent != [] && a.sent[0] == SnapshotRep(0)
              && BatchSent(ws, requester, package, period, now, good - 1, a.workers, a.sent[1..])
    ensures var a := OnSyncSignal(ws, requester, period, now, good);
            if requester in ws then
              BatchSent(ws, requester, ws[requester].left, period, now, good, a.workers, a.sent)
            else a.workers == ws && a.sent == []
  {
    hide ItemMsgs;
    BatchIs(ws, requester, package, period, now, if good > 0 then good - 1 else 0);
    if requester in ws {
      BatchIs(ws, requester, ws[requester].left, period, now, good);
    }
  }

  /** The first items are sent, at most `period`, as far as sends succeed.  The worker stays, with the
      rest and the stamp of the batch, exactly if all of them succeeded and something is left; it is
      then asked to signal. */
  ghost predicate BatchSent(ws: map<string, Worker>, requester: string, left: seq<Item>, period: nat, now: nat,
                            good: nat, workers: map<string, Worker>, sent: seq<Msg>)
  {
    var n := if period <= |left| then period else |left|;
    var k := if good < n then good else n;
    && workers - {requester} == ws - {requester}
    && (requester in workers <==> n <= good && n < |left|)
    && (requester in workers ==> workers[requester] == Worker(left[n..], now))
    && |sent| == k + (if n < |left| && n < good then 1 else 0)
    && (forall i :: 0 <= i < k ==> sent[i] == ItemMsg(left[i]))
    && (|sent| > k ==> sent[k] == SyncSignalReq)
  }

  lemma {:induction false} BatchIs(ws: map<string, Worker>, requester: string, left: seq<Item>, period: nat, now: nat,
                                   good: nat)
    ensures var a := SendBatch(ws, requester, left, period, now, good);
            BatchSent(ws, requester, left, period, now, good, a.workers, a.sent)
  {
    hide ItemMsgs;
    var n := Min(period, |left|);
    if good < n {
      FrontMsgs(left, good, []);
      GoneWorker(ws, requester);
    } else if n == |left| {
      FrontMsgs(left, n, []);
      assert left[..n] == left;
      GoneWorker(ws, requester);
    } else {
      FrontMsgs(left, n, if good > n then [SyncSignalReq] else []);
      AddSize(ws, requester, Worker(left[n..], now));
    }
  }

  lemma {:induction false} GoneWorker(ws: map<string, Worker>, r: string)
    ensures (ws - {r}) - {r} == ws - {r}
  {
  }

  lemma {:induction false} FrontMsgs(left: seq<Item>, k: nat, more: seq<Msg>)
    requires k <= |left|
    ensures var sent := ItemMsgs(left[..k]) + more;
            && |sent| == k + |more|
            && (forall i :: 0 <= i < k ==> sent[i] == ItemMsg(left[i]))
            && (forall i :: 0 <= i < |more| ==> sent[k + i] == more[i])
    ensures ItemMsgs(left[..k]) + [] == ItemMsgs(left[..k])
  {
  }

  /** The timer leaves a worker exactly as it is if it has not waited longer than the timeout, and drops
      it otherwise.  A worker whose last batch was sent later than now has waited, for the 64-bit
      subtraction, nearly 2^64 milliseconds. */
  lemma {:induction false} TimerKeepsIff(ws: map<string, Worker>, timeout: nat, now: nat)
    ensures var kept := OnTimer(ws, timeout, now);
            && (forall r :: r in kept ==> r in ws && kept[r] == ws[r])
            && (forall r :: r in ws && ws[r].lastSend <= now ==> (r in kept <==> now <= ws[r].lastSend + timeout))
            && (forall r :: r in ws && now < ws[r].lastSend ==>
                              (r in kept <==> now + 0x1_0000_0000_0000_0000 <= ws[r].lastSend + timeout))
  {
  }

  /** An event of one requester leaves the others alone, and there are never more workers than places. */
  lemma {:induction false} OthersUntouched(ws: map<string, Worker>, requester: string, package: seq<Item>,
                                           capacity: nat, period: nat, now: nat, good: nat)
    requires |ws| <= capacity
    ensures var a := OnSnapshotReq(ws, requester, package, capacity, period, now, good);
            var s := OnSyncSignal(ws, requester, period, now, good);
            && a.workers - {requester} == ws - {requester} && s.workers - {requester} == ws - {requester}
            && |a.workers| <= capacity && |s.workers| <= |ws|
  {
    hide SendBatch, ItemMsgs;
    BatchOthers(ws, requester, package, period, now, if good > 0 then good - 1 else 0);
    if requester in ws {
      BatchOthers(ws, requester, ws[requester].left, period, now, good);
    }
  }

  lemma {:induction false} BatchOthers(ws: map<string, Worker>, requester: string, left: seq<Item>, period: nat,
                                       now: nat, good: nat)
    ensures var a := SendBatch(ws, requester, left, period, now, good);
            && a.workers - {requester} == ws - {requester}
            && |a.workers| <= |ws| + if requester in ws then 0 else 1
  {
    hide ItemMsgs;
    var n := Min(period, |left|);
    if good < n || n == |left| {
      if requester in ws {
        RemoveSize(ws, requester);
      } else {
        assert ws - {requester} == ws;
      }
    } else {
      AddSize(ws, requester, Worker(left[n..], now));
    }
  }

  lemma {:induction false} RemoveSize(ws: map<string, Worker>, r: string)
    requires r in ws
    ensures |ws - {r}| == |ws| - 1
  {
    assert (ws - {r}).Keys == ws.Keys - {r};
    assert |ws.Keys - {r}| == |ws.Keys| - 1;
  }

  lemma {:induction false} AddSize(ws: map<string, Worker>, r: string, w: Worker)
    ensures ws[r := w] - {r} == ws - {r}
    ensures |ws[r := w]| == |ws| + if r in ws then 0 else 1
  {
    assert ws[r := w].Keys == ws.Keys + {r};
    if r in ws {
      assert ws.Keys + {r} == ws.Keys;
    }
  }
}
