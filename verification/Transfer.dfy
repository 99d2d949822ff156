/** Server and client run together over two lossless FIFO channels, in any interleaving. */
module Transfer {
  import opened Package
  import opened ProductSpec
  import opened ReaderSpec
  import opened ReaderGrammar
  import opened ServerSpec
  import opened Sweep

  datatype Signal = Request | SyncReply

  /** What a transfer is about; `now` stands for every clock reading of the client. */
  datatype Setup = Setup(builder: Builder, calls: seq<BuilderCall>, requester: string, package: seq<Item>,
                         capacity: nat, period: nat, now: nat)

  /** `up` and `down` are the channels; `taken` is what the client has read so far, `batches`
      counts the batches sent to it, and `sentAt` is the server's clock at the last of them. */
  datatype Sys = Sys(ws: map<string, Worker>, up: seq<Signal>, down: seq<Msg>, client: Reader,
                     taken: seq<Msg>, accepted: bool, batches: nat, sentAt: nat)

  function Left(c: Setup, s: Sys): seq<Item> {
    if c.requester in s.ws then s.ws[c.requester].left else []
  }

  predicate Accepting(c: Setup, ws: map<string, Worker>) {
    c.requester !in ws && |ws| < c.capacity
  }

  function Init(c: Setup, ws: map<string, Worker>): Sys {
    Sys(ws, [Request], [], StartedReader(c.calls), [], false, 0, 0)
  }

  /** The server takes the next signal; no send fails. */
  function Serve(c: Setup, s: Sys, now: nat): Sys
    requires s.up != []
  {
    if s.up[0] == Request then
      var a := OnSnapshotReq(s.ws, c.requester, c.package, c.capacity, c.period, now, |c.package| + 2);
      var ok := Accepting(c, s.ws);
      s.(ws := a.workers, up := s.up[1..], down := s.down + a.sent, accepted := ok,
      batches := if ok then 1 else 0, sentAt := now)
    else
      var a := OnSyncSignal(s.ws, c.requester, c.period, now, |Left(c, s)| + 2);
      s.(ws := a.workers, up := s.up[1..], down := s.down + a.sent,
      batches := s.batches + if c.requester in s.ws then 1 else 0, sentAt := now)
  }

  /** The client reads the next message and may send a sync reply. */
  function Consume(c: Setup, s: Sys): Sys
    requires s.down != [] && s.client.Active()
  {
    var client := Step(c.builder, s.client, s.down[0], c.now);
    s.(client := client, down := s.down[1..], taken := s.taken + [s.down[0]],
    up := s.up + if client.syncs > s.client.syncs then [SyncReply] else [])
  }

  /** Meanwhile the service may do anything for other requesters. */
  predicate OthersMove(c: Setup, s: Sys, ws: map<string, Worker>) {
    (c.requester in ws <==> c.requester in s.ws) && (c.requester in ws ==> ws[c.requester] == s.ws[c.requester])
  }

  /** The server serves by its own clock.  Its timer runs while the requester's worker, if it has one,
      has not waited longer than the timeout since the last batch. */
  datatype Act =
    | DoServe(now: nat)
    | DoConsume
    | DoOthers(ws: map<string, Worker>)
    | DoTimer(timeout: nat, now: nat)

  predicate Enabled(c: Setup, s: Sys, a: Act) {
    match a
    case DoServe(now) => s.up != []
    case DoConsume => s.down != [] && s.client.Active()
    case DoOthers(ws) => OthersMove(c, s, ws)
    case DoTimer(timeout, now) =>
      s.accepted && c.requester in s.ws ==> s.sentAt <= now <= s.sentAt + timeout
  }

  function Do(c: Setup, s: Sys, a: Act): Sys
    requires Enabled(c, s, a)
  {
    match a
    case DoServe(now) => Serve(c, s, now)
    case DoConsume => Consume(c, s)
    case DoOthers(ws) => s.(ws := ws)
    case DoTimer(timeout, now) => s.(ws := OnTimer(s.ws, timeout, now))
  }

  /** Neither side has anything to do. */
  predicate Final(s: Sys) {
    s.up == [] && (s.down == [] || !s.client.Active())
  }

  function ItemsOf(ms: seq<Msg>): seq<Item> {
    if ms == [] then [] else (if ms[0].ItemMsg? then [ms[0].item] else []) + ItemsOf(ms[1..])
  }

  lemma {:induction false} ItemsOfAppend(a: seq<Msg>, b: seq<Msg>)
    ensures ItemsOf(a + b) == ItemsOf(a) + ItemsOf(b)
  {
    if a == [] {
      assert a + b == b;
    } else {
      assert (a + b)[1..] == a[1..] + b;
      ItemsOfAppend(a[1..], b);
      var h, x, y := if a[0].ItemMsg? then [a[0].item] else [], ItemsOf(a[1..]), ItemsOf(b);
      assert h + (x + y) == (h + x) + y;
    }
  }

  lemma {:induction false} ItemsOfItems(items: seq<Item>)
    ensures ItemsOf(ItemMsgs(items)) == items
  {
    if items != [] {
      assert ItemMsgs(items)[1..] == ItemMsgs(items[1..]);
      ItemsOfItems(items[1..]);
    }
  }

  /** Conservation: what the client has read, then what is in flight, then what the worker still has
      is the package, and the only sync request under way is the last message in flight or its reply. */
  ghost predicate Conserved(c: Setup, s: Sys) {
    && s.taken + s.down != [] && (s.taken + s.down)[0] == SnapshotRep(0)
    && ItemsOf(s.taken) + ItemsOf(s.down) + Left(c, s) == c.package
    && (forall i :: 0 <= i < |s.down| && s.down[i] == SyncSignalReq ==>
                      i == |s.down| - 1 && Left(c, s) != [] && s.up == [])
    && (s.up != [] ==> s.down == [] && Left(c, s) != [])
    && (s.client.Active() ==> (Left(c, s) != [] <==> s.up != [] || SyncSignalReq in s.down))
  }

  /** `n` items were sent in `batches` batches of `period`. */
  ghost predicate Counted(c: Setup, s: Sys) {
    && s.batches >= 1
    && |c.package| - |Left(c, s)| == Min(s.batches * c.period, |c.package|)
    && (s.batches - 1) * c.period < |c.package|
  }

  ghost predicate Inv(c: Setup, s: Sys) {
    && s.client == Read(c.builder, StartedReader(c.calls), s.taken, c.now)
    && |s.up| <= 1
    && (s.accepted && c.requester in s.ws ==> s.ws[c.requester].lastSend == s.sentAt)
    && (if s.up == [Request] then s.taken == [] && s.down == [] && !s.accepted
        else if !s.accepted then s.taken + s.down == [SnapshotRep(-1)] && s.up == []
        else Conserved(c, s) && Counted(c, s))
  }

  lemma {:induction false} InitInv(c: Setup, ws: map<string, Worker>)
    ensures Inv(c, Init(c, ws))
  {
  }

  /** A batch moves items from the worker to the channel, in order. */
  lemma {:induction false} BatchMoves(ws: map<string, Worker>, r: string, left: seq<Item>, period: nat, now: nat,
                                      good: nat)
    requires good > |left|
    ensures var a := SendBatch(ws, r, left, period, now, good);
            var n := Min(period, |left|);
            var rest := if r in a.workers then a.workers[r].left else [];
            && a.sent == ItemMsgs(left[..n]) + (if rest == [] then [] else [SyncSignalReq])
            && ItemsOf(a.sent) == left[..n] && rest == left[n..]
            && (r in a.workers ==> a.workers[r].lastSend == now)
  {
    var n := Min(period, |left|);
    ItemsOfItems(left[..n]);
    ItemsOfAppend(ItemMsgs(left[..n]), [SyncSignalReq]);
    assert [SyncSignalReq][1..] == [];
    if n == |left| {
      assert left[..n] == left;
    }
    assert ItemMsgs(left[..n]) + [] == ItemMsgs(left[..n]);
  }

  lemma {:induction false} CountNext(batches: nat, period: nat, n: nat, left: nat)
    requires n - left == Min(batches * period, n) && 0 < left <= n
    ensures n - (left - Min(period, left)) == Min((batches + 1) * period, n)
    ensures batches * period < n
  {
    assert (batches + 1) * period == batches * period + period;
  }

  lemma {:induction false} ServeRequestInv(c: Setup, s: Sys, now: nat)
    requires Inv(c, s) && s.up == [Request] && c.package != []
    ensures Inv(c, Serve(c, s, now))
  {
    hide SendBatch, ItemMsgs, Read, Conserved, Counted;
    var t := Serve(c, s, now);
    if Accepting(c, s.ws) {
      BatchMoves(s.ws, c.requester, c.package, c.period, now, |c.package| + 1);
      var n := Min(c.period, |c.package|);
      FirstBatch(c, t, n);
      FirstCounted(c, t, n);
    }
  }

  lemma {:induction false} FirstCounted(c: Setup, t: Sys, n: nat)
    requires c.package != [] && n == Min(c.period, |c.package|)
    requires Left(c, t) == c.package[n..] && t.batches == 1
    ensures Counted(c, t)
  {
  }

  lemma {:induction false} FirstBatch(c: Setup, t: Sys, n: nat)
    requires c.package != [] && n == Min(c.period, |c.package|)
    requires Left(c, t) == c.package[n..] && t.up == [] && t.taken == [] && t.batches == 1
    requires t.down == [SnapshotRep(0)] + (ItemMsgs(c.package[..n]) + if Left(c, t) == [] then [] else [SyncSignalReq])
    requires ItemsOf(ItemMsgs(c.package[..n]) + if Left(c, t) == [] then [] else [SyncSignalReq]) == c.package[..n]
    ensures Conserved(c, t)
  {
    hide ItemMsgs;
    assert t.taken + t.down == t.down;
    assert t.down[1..] == ItemMsgs(c.package[..n]) + if Left(c, t) == [] then [] else [SyncSignalReq];
    assert ItemsOf(t.down) == c.package[..n];
    assert [] + c.package[..n] + c.package[n..] == c.package;
    SyncIsLast([SnapshotRep(0)], c.package[..n], Left(c, t));
  }

  lemma {:induction false} SyncIsLast(pre: seq<Msg>, items: seq<Item>, left: seq<Item>)
    requires SyncSignalReq !in pre
    ensures var down := pre + (ItemMsgs(items) + if left == [] then [] else [SyncSignalReq]);
            && (forall i :: 0 <= i < |down| && down[i] == SyncSignalReq ==> i == |down| - 1 && left != [])
            && (SyncSignalReq in down <==> left != [])
  {
    var down := pre + (ItemMsgs(items) + if left == [] then [] else [SyncSignalReq]);
    assert left != [] ==> down[|down| - 1] == SyncSignalReq;
  }

  lemma {:induction false} NextBatchCounted(c: Setup, s: Sys, t: Sys)
    requires Counted(c, s) && 0 < |Left(c, s)| <= |c.package| && t.batches == s.batches + 1
    requires |Left(c, t)| == |Left(c, s)| - Min(c.period, |Left(c, s)|)
    ensures Counted(c, t)
  {
    CountNext(s.batches, c.period, |c.package|, |Left(c, s)|);
  }

  lemma {:induction false} ServeReplyInv(c: Setup, s: Sys, now: nat)
    requires Inv(c, s) && s.up == [SyncReply]
    ensures Inv(c, Serve(c, s, now))
  {
    hide SendBatch, ItemMsgs, Read, Counted;
    var t := Serve(c, s, now);
    var left := Left(c, s);
    assert s.up != [Request] by {
      assert s.up[0] == SyncReply;
    }
    BatchMoves(s.ws, c.requester, left, c.period, now, |left| + 2);
    NextBatchCounted(c, s, t);
    assert t.down == ItemMsgs(left[..Min(c.period, |left|)]) + if Left(c, t) == [] then [] else [SyncSignalReq];
    NextBatch(c, s, t, Min(c.period, |left|));
  }

  lemma {:induction false} NextBatch(c: Setup, s: Sys, t: Sys, n: nat)
    requires Conserved(c, s) && s.down == [] && n <= |Left(c, s)|
    requires t.taken == s.taken && t.up == [] && Left(c, t) == Left(c, s)[n..]
    requires t.down == ItemMsgs(Left(c, s)[..n]) + if Left(c, t) == [] then [] else [SyncSignalReq]
    requires ItemsOf(t.down) == Left(c, s)[..n]
    ensures Conserved(c, t)
  {
    hide ItemMsgs;
    var left := Left(c, s);
    assert t.down == [] + t.down;
    SyncIsLast([], left[..n], Left(c, t));
    assert left[..n] + left[n..] == left;
    assert ItemsOf(s.taken) + left[..n] + left[n..] == ItemsOf(s.taken) + left;
    assert s.taken + s.down == s.taken;
    assert (s.taken + t.down)[0] == s.taken[0];
  }

  /** A message gives a sync reply only if it is a sync request and the client reads on; if the
      client reads on after a sync request, it has sent a reply. */
  lemma {:induction false} ReplyIffSync(b: Builder, r: Reader, m: Msg, now: nat)
    requires r.Active()
    ensures var t := Step(b, r, m, now);
            && t.syncs >= r.syncs
            && (t.syncs > r.syncs ==> m == SyncSignalReq)
            && (m == SyncSignalReq && t.Active() ==> t.syncs > r.syncs)
  {
  }

  lemma {:induction false} ConsumeConserved(c: Setup, s: Sys)
    requires Conserved(c, s) && s.down != [] && s.client.Active()
    ensures Conserved(c, Consume(c, s))
    ensures Left(c, Consume(c, s)) == Left(c, s)
  {
    hide Step, Left, ItemsOf;
    var t, m := Consume(c, s), s.down[0];
    ReplyIffSync(c.builder, s.client, m, c.now);
    SameLeft(c, s, t);
    assert s.up == [];
    assert t.taken + t.down == s.taken + s.down;
    ItemsMove(s.taken, s.down);
    OneSync(s.down);
  }

  lemma {:induction false} SameLeft(c: Setup, s: Sys, t: Sys)
    requires s.ws == t.ws
    ensures Left(c, s) == Left(c, t)
  {
  }

  lemma {:induction false} ItemsMove(taken: seq<Msg>, down: seq<Msg>)
    requires down != []
    ensures ItemsOf(taken + [down[0]]) + ItemsOf(down[1..]) == ItemsOf(taken) + ItemsOf(down)
  {
    ItemsOfAppend(taken, [down[0]]);
    ItemsOfAppend([down[0]], down[1..]);
    assert down == [down[0]] + down[1..];
  }

  /** A sync request that can only be the last message. */
  lemma {:induction false} OneSync(down: seq<Msg>)
    requires down != [] && forall i :: 0 <= i < |down| && down[i] == SyncSignalReq ==> i == |down| - 1
    ensures down[0] == SyncSignalReq ==> down[1..] == [] && SyncSignalReq !in down[1..]
    ensures down[0] != SyncSignalReq ==> (SyncSignalReq in down <==> SyncSignalReq in down[1..])
    ensures forall i :: 0 <= i < |down[1..]| && down[1..][i] == SyncSignalReq ==> i == |down[1..]| - 1
  {
    assert down == [down[0]] + down[1..];
    forall i | 0 <= i < |down[1..]| && down[1..][i] == SyncSignalReq
      ensures i == |down[1..]| - 1
    {
      assert down[i + 1] == SyncSignalReq;
    }
  }

  lemma {:induction false} ConsumeInv(c: Setup, s: Sys)
    requires Inv(c, s) && s.down != [] && s.client.Active()
    ensures Inv(c, Consume(c, s))
  {
    hide Step, Read, Conserved, Counted;
    var t, m := Consume(c, s), s.down[0];
    var r0 := StartedReader(c.calls);
    ReadAppend(c.builder, r0, s.taken, [m], c.now);
    ReadOne(c.builder, s.client, m, c.now);
    ReplyIffSync(c.builder, s.client, m, c.now);
    if s.accepted {
      NoReplyPending(c, s);
      ConsumeConserved(c, s);
      SameCount(c, s, t);
      assert t.up != [] ==> t.up[0] == SyncReply;
    } else {
      assert (s.taken + s.down)[|s.taken|] == m;
      assert t.taken + t.down == s.taken + s.down;
    }
  }

  lemma {:induction false} NoReplyPending(c: Setup, s: Sys)
    requires Conserved(c, s) && s.down != []
    ensures s.up == []
  {
  }

  lemma {:induction false} SameCount(c: Setup, s: Sys, t: Sys)
    requires Counted(c, s) && Left(c, s) == Left(c, t) && s.batches == t.batches
    ensures Counted(c, t)
  {
  }

  lemma {:induction false} ReadOne(b: Builder, r: Reader, m: Msg, now: nat)
    ensures Read(b, r, [m], now) == Step(b, r, m, now)
  {
    assert [m][1..] == [];
    assert Read(b, Step(b, r, m, now), [], now) == Step(b, r, m, now);
  }

  lemma {:induction false} TimerInv(c: Setup, s: Sys, timeout: nat, now: nat)
    requires Inv(c, s) && Enabled(c, s, DoTimer(timeout, now))
    ensures Inv(c, s.(ws := OnTimer(s.ws, timeout, now)))
    ensures s.accepted ==> OthersMove(c, s, OnTimer(s.ws, timeout, now))
  {
    hide OnTimer, Read;
    TimerKeepsIff(s.ws, timeout, now);
  }

  /** Every step of either side, the server's timer, and anything done for other requesters, keeps the invariant. */
  lemma {:induction false} DoInv(c: Setup, s: Sys, a: Act)
    requires Inv(c, s) && Enabled(c, s, a) && c.package != []
    ensures Inv(c, Do(c, s, a))
  {
    hide Serve, Consume, Read;
    match a
    case DoServe(now) =>
      assert s.up == [s.up[0]];
      if s.up[0] == Request {
        ServeRequestInv(c, s, now);
      } else {
        ServeReplyInv(c, s, now);
      }
    case DoConsume => ConsumeInv(c, s);
    case DoOthers(ws) =>
    case DoTimer(timeout, now) => TimerInv(c, s, timeout, now);
  }

  /** A package of n items takes ceil(n / period) batches. */
  lemma {:induction false} BatchesAreCeil(c: Setup, s: Sys)
    requires Inv(c, s) && s.accepted && s.up != [Request] && Left(c, s) == [] && c.period > 0
    ensures s.batches == (|c.package| + c.period - 1) / c.period
  {
    hide Conserved, Read;
    var n, p, b := |c.package|, c.period, s.batches;
    assert (b - 1) * p < n <= b * p;
    assert (b - 1) * p == b * p - p;
    DivIs(n + p - 1, p, b);
  }

  lemma {:induction false} DivIs(x: nat, p: nat, b: nat)
    requires p > 0 && b * p <= x < b * p + p
    ensures x / p == b
  {
    var q := x / p;
    assert q * p <= x < q * p + p;
    MulMonotone(q + 1, b, p);
    MulMonotone(b + 1, q, p);
  }

  lemma {:induction false} MulMonotone(a: nat, b: nat, p: nat)
    ensures a <= b ==> a * p <= b * p
    ensures (a * p) - p == (a - 1) * p
  {
  }
}
