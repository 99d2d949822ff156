/** Transfers in which sends fail, the client times out or the server drops the worker: what the client
    reports as a success still is the whole package. */
module TransferFaults {
  import opened Package
  import opened ReaderSpec
  import opened ReaderGrammar
  import opened ServerSpec
  import opened Transfer
  import opened TransferResult
  import Sweep

  /** `good` sends of the server succeed before one fails; the client's own last send, which it does
      not look back at, fails; the server's timer runs at any time. */
  datatype Fault =
    | Plain(act: Act)
    | LossyServe(good: nat, now: nat)
    | LostSignal
    | ClientTimeout
    | ServerTimer(timeout: nat, now: nat)

  predicate Possible(c: Setup, s: Sys, f: Fault) {
    match f
    case Plain(a) => Enabled(c, s, a)
    case LossyServe(_, _) => s.up != []
    case LostSignal => s.up != []
    case ClientTimeout => s.client.Active()
    case ServerTimer(_, _) => true
  }

  function ServeSome(c: Setup, s: Sys, good: nat, now: nat): Sys
    requires s.up != []
  {
    if s.up[0] == Request then
      var a := OnSnapshotReq(s.ws, c.requester, c.package, c.capacity, c.period, now, good);
      var ok := good > 0 && Accepting(c, s.ws);
      s.(ws := a.workers, up := s.up[1..], down := s.down + a.sent, accepted := ok,
      batches := if ok then 1 else 0, sentAt := now)
    else
      var a := OnSyncSignal(s.ws, c.requester, c.period, now, good);
      s.(ws := a.workers, up := s.up[1..], down := s.down + a.sent,
      batches := s.batches + if c.requester in s.ws then 1 else 0, sentAt := now)
  }

  function Happen(c: Setup, s: Sys, f: Fault): Sys
    requires Possible(c, s, f)
  {
    match f
    case Plain(a) => Do(c, s, a)
    case LossyServe(good, now) => ServeSome(c, s, good, now)
    case LostSignal => s.(up := s.up[..|s.up| - 1])
    case ClientTimeout => s.(client := React(c.builder, s.client, Timeout))
    case ServerTimer(timeout, now) => s.(ws := OnTimer(s.ws, timeout, now))
  }

  /** The client is where its messages took it, or has timed out there. */
  ghost predicate ClientOk(c: Setup, s: Sys) {
    var r := Read(c.builder, StartedReader(c.calls), s.taken, c.now);
    s.client == r || (r.Active() && s.client == r.Finish(-1))
  }

  /** A reply, and then items and sync requests. */
  ghost predicate Stream(ms: seq<Msg>) {
    && ms != [] && ms[0] == SnapshotRep(0)
    && forall i :: 0 < i < |ms| ==> ms[i].ItemMsg? || ms[i] == SyncSignalReq
  }

  /** What was sent is the front of the package, and a worker holds the rest. */
  ghost predicate Sent(c: Setup, s: Sys) {
    && Stream(s.taken + s.down)
    && ItemsOf(s.taken + s.down) <= c.package
    && (c.requester in s.ws ==> ItemsOf(s.taken + s.down) + s.ws[c.requester].left == c.package)
  }

  ghost predicate Safe(c: Setup, s: Sys) {
    && ClientOk(c, s)
    && (forall i :: 0 <= i < |s.up| && s.up[i] == Request ==>
                      |s.up| == 1 && s.taken == [] && s.down == [] && !s.accepted)
    && (s.up != [Request] ==>
          if s.accepted then Sent(c, s)
          else s.up == [] && (s.taken + s.down == [] || s.taken + s.down == [SnapshotRep(-1)]))
  }

  /** However many sends of a batch succeed, they are the front of what was left. */
  lemma {:induction false} SomeMoves(ws: map<string, Worker>, r: string, left: seq<Item>, period: nat, now: nat,
                                     good: nat)
    returns (n: nat)
    ensures var a := SendBatch(ws, r, left, period, now, good);
            && n <= |left| && ItemsOf(a.sent) == left[..n]
            && (forall i :: 0 <= i < |a.sent| ==> a.sent[i].ItemMsg? || a.sent[i] == SyncSignalReq)
            && (r in a.workers ==> a.workers[r].left == left[n..])
  {
    var k := Sweep.Min(period, |left|);
    n := if good < k then good else k;
    ItemsOfItems(left[..n]);
    ItemsOfAppend(ItemMsgs(left[..n]), [SyncSignalReq]);
    assert [SyncSignalReq][1..] == [];
    assert ItemMsgs(left[..n]) + [] == ItemMsgs(left[..n]);
    assert left[..|left|] == left;
  }

  lemma {:induction false} StreamGrows(ms: seq<Msg>, more: seq<Msg>)
    requires Stream(ms) && forall i :: 0 <= i < |more| ==> more[i].ItemMsg? || more[i] == SyncSignalReq
    ensures Stream(ms + more)
  {
  }

  lemma {:induction false} ReplyStarts()
    ensures Stream([SnapshotRep(0)])
  {
  }

  lemma {:induction false} ReplySafe(c: Setup, s: Sys, good: nat, now: nat)
    requires Safe(c, s) && s.up != [] && s.up[0] == SyncReply
    ensures Safe(c, ServeSome(c, s, good, now))
  {
    hide SendBatch, Read, Reader.Active, Stream;
    var t := ServeSome(c, s, good, now);
    assert s.up != [Request];
    if c.requester in s.ws {
      var left := s.ws[c.requester].left;
      var n := SomeMoves(s.ws, c.requester, left, c.period, now, good);
      var a := SendBatch(s.ws, c.requester, left, c.period, now, good);
      ItemsOfAppend(s.taken + s.down, a.sent);
      assert t.taken + t.down == (s.taken + s.down) + a.sent;
      StreamGrows(s.taken + s.down, a.sent);
      assert left == left[..n] + left[n..];
    } else {
      assert t.down == s.down;
    }
  }

  lemma {:induction false} RequestSafe(c: Setup, s: Sys, good: nat, now: nat)
    requires Safe(c, s) && s.up == [Request]
    ensures Safe(c, ServeSome(c, s, good, now))
  {
    hide SendBatch, Read, Reader.Active, Stream, ItemsOf;
    var t := ServeSome(c, s, good, now);
    assert s.up[0] == Request;
    if good > 0 && Accepting(c, s.ws) {
      var n := SomeMoves(s.ws, c.requester, c.package, c.period, now, good - 1);
      var a := SendBatch(s.ws, c.requester, c.package, c.period, now, good - 1);
      assert t.taken + t.down == [SnapshotRep(0)] + a.sent;
      ReplyFirst(a.sent);
      ReplyStarts();
      StreamGrows([SnapshotRep(0)], a.sent);
      assert c.package == c.package[..n] + c.package[n..];
    }
  }

  lemma {:induction false} ConsumeSafe(c: Setup, s: Sys)
    requires Safe(c, s) && s.down != [] && s.client.Active()
    ensures Safe(c, Consume(c, s))
  {
    hide Step, Read, Stream;
    var t, m := Consume(c, s), s.down[0];
    ReadAppend(c.builder, StartedReader(c.calls), s.taken, [m], c.now);
    ReadOne(c.builder, s.client, m, c.now);
    ReplyIffSync(c.builder, s.client, m, c.now);
    assert t.taken + t.down == s.taken + s.down;
    assert |s.up| > 0 ==> s.up[0] != Request;
    assert s.up != [Request];
    assert !s.accepted ==> (s.taken + s.down)[|s.taken|] == m;
    forall i | 0 <= i < |t.up|
      ensures t.up[i] != Request
    {
      assert i < |s.up| ==> t.up[i] == s.up[i];
    }
    assert t.up != [] ==> t.up != [Request] by {
      assert t.up != [] ==> t.up[0] != Request;
    }
  }

  lemma {:induction false} HappenSafe(c: Setup, s: Sys, f: Fault)
    requires Safe(c, s) && Possible(c, s, f)
    ensures Safe(c, Happen(c, s, f))
  {
    hide ServeSome, Consume, Read, Safe;
    match f
    case Plain(DoServe(now)) =>
      var good := if s.up[0] == Request then |c.package| + 2 else |Left(c, s)| + 2;
      ServeIsSome(c, s, now);
      ServeSafe(c, s, good, now);
    case Plain(DoConsume) => ConsumeSafe(c, s);
    case Plain(DoOthers(ws)) => OthersSafe(c, s, ws);
    case Plain(DoTimer(timeout, now)) => TimerSafe(c, s, timeout, now);
    case LossyServe(good, now) => ServeSafe(c, s, good, now);
    case LostSignal => LostSafe(c, s);
    case ClientTimeout => TimeoutSafe(c, s);
    case ServerTimer(timeout, now) => TimerSafe(c, s, timeout, now);
  }

  lemma {:induction false} ServeIsSome(c: Setup, s: Sys, now: nat)
    requires s.up != []
    ensures Serve(c, s, now) ==
            ServeSome(c, s, if s.up[0] == Request then |c.package| + 2 else |Left(c, s)| + 2, now)
  {
    hide OnSnapshotReq, OnSyncSignal;
  }

  lemma {:induction false} ServeSafe(c: Setup, s: Sys, good: nat, now: nat)
    requires Safe(c, s) && s.up != []
    ensures Safe(c, ServeSome(c, s, good, now))
  {
    hide ServeSome, ClientOk, Sent;
    if s.up[0] == Request {
      assert s.up == [Request];
      RequestSafe(c, s, good, now);
    } else {
      ReplySafe(c, s, good, now);
    }
  }

  lemma {:induction false} OthersSafe(c: Setup, s: Sys, ws: map<string, Worker>)
    requires Safe(c, s) && OthersMove(c, s, ws)
    ensures Safe(c, s.(ws := ws))
  {
    hide Read, Stream, ItemsOf;
  }

  lemma {:induction false} LostSafe(c: Setup, s: Sys)
    requires Safe(c, s) && s.up != []
    ensures Safe(c, s.(up := s.up[..|s.up| - 1]))
  {
    hide Read, Stream, ItemsOf;
    var up := s.up[..|s.up| - 1];
    assert forall i :: 0 <= i < |up| ==> up[i] == s.up[i];
    assert up != [Request] by {
      assert up != [] ==> s.up[0] != Request;
    }
    if s.up == [Request] {
      assert s.up[0] == Request;
      assert s.taken + s.down == [];
    }
  }

  lemma {:induction false} TimeoutSafe(c: Setup, s: Sys)
    requires Safe(c, s) && s.client.Active()
    ensures Safe(c, s.(client := React(c.builder, s.client, Timeout)))
  {
    hide Read, Stream, ItemsOf;
  }

  lemma {:induction false} TimerSafe(c: Setup, s: Sys, timeout: nat, now: nat)
    requires Safe(c, s)
    ensures Safe(c, s.(ws := OnTimer(s.ws, timeout, now)))
  {
    hide Read, Stream, ItemsOf;
  }

  ghost predicate Reaches(c: Setup, s: Sys, faults: seq<Fault>, t: Sys)
    decreases |faults|
  {
    if faults == [] then s == t
    else Possible(c, s, faults[0]) && Reaches(c, Happen(c, s, faults[0]), faults[1..], t)
  }

  lemma {:induction false} ReachesSafe(c: Setup, s: Sys, faults: seq<Fault>, t: Sys)
    requires Safe(c, s) && Reaches(c, s, faults, t)
    ensures Safe(c, t)
    decreases |faults|
  {
    hide Safe, Happen;
    if faults != [] {
      HappenSafe(c, s, faults[0]);
      ReachesSafe(c, Happen(c, s, faults[0]), faults[1..], t);
    }
  }

  // What a reported success says

  /** Only the end of the snapshot adds a 0 to what was reported. */
  lemma {:induction false} StepReports(b: Builder, r: Reader, m: Msg, now: nat)
    ensures var t := Step(b, r, m, now);
            || t.completed == r.completed
            || (t.completed == r.completed + [-1] && !t.Active())
            || (t.completed == r.completed + [0] && !t.Active() && m == ItemMsg(SnapshotEnd))
  {
  }

  lemma {:induction false} ReadReports(b: Builder, r: Reader, ms: seq<Msg>, now: nat)
    requires r.completed == []
    ensures var t := Read(b, r, ms, now);
            && (t.completed == [] || t.completed == [0] || t.completed == [-1])
            && (t.completed == [0] ==> ItemMsg(SnapshotEnd) in ms)
            && (t.Active() ==> t.completed == [])
    decreases |ms|
  {
    hide Step, Reader.Active;
    if ms != [] {
      var s := Step(b, r, ms[0], now);
      StepReports(b, r, ms[0], now);
      assert [] + [-1] == [-1] && [] + [0] == [0];
      if s.completed == [] {
        ReadReports(b, s, ms[1..], now);
      } else {
        InactiveStays(b, s, ms[1..], now);
      }
    }
  }

  function NoSyncs(ms: seq<Msg>): seq<Msg> {
    if ms == [] then [] else (if ms[0] == SyncSignalReq then [] else [ms[0]]) + NoSyncs(ms[1..])
  }

  /** On a sync request the client goes on where it was, or it does not report success any more. */
  lemma {:induction false} SyncOrStop(b: Builder, r: Reader, now: nat)
    ensures var t := Step(b, r, SyncSignalReq, now);
            SameButSyncs(t, r) || (!t.Active() && t.completed != r.completed + [0])
  {
    assert (r.completed + [-1])[|r.completed|] == -1;
    assert |r.completed + [0]| != |r.completed|;
  }

  /** A success is the same without the sync requests. */
  lemma {:induction false} SuccessWithoutSyncs(b: Builder, r: Reader, q: Reader, ms: seq<Msg>, now: nat)
    requires SameButSyncs(r, q) && r.completed == [] && Read(b, r, ms, now).completed == [0]
    ensures SameButSyncs(Read(b, r, ms, now), Read(b, q, NoSyncs(ms), now))
    decreases |ms|
  {
    hide Step, Reader.Active;
    if ms != [] {
      var m, rest := ms[0], ms[1..];
      var s := Step(b, r, m, now);
      if !s.Active() {
        InactiveStays(b, s, rest, now);
      }
      if m == SyncSignalReq {
        SyncOrStop(b, r, now);
        assert [] + [0] == [0];
        assert NoSyncs(ms) == NoSyncs(rest);
        SuccessWithoutSyncs(b, s, q, rest, now);
      } else {
        StepIgnoresSyncs(b, r, q, m, now);
        StepReports(b, r, m, now);
        var p := Step(b, q, m, now);
        assert NoSyncs(ms) == [m] + NoSyncs(rest);
        assert NoSyncs(ms)[1..] == NoSyncs(rest);
        if s.completed == [] {
          SuccessWithoutSyncs(b, s, p, rest, now);
        } else {
          InactiveSame(b, s, p, rest, now);
        }
      }
    }
  }

  lemma {:induction false} InactiveSame(b: Builder, s: Reader, p: Reader, ms: seq<Msg>, now: nat)
    requires SameButSyncs(s, p) && !s.Active()
    ensures SameButSyncs(Read(b, s, ms, now), Read(b, p, NoSyncs(ms), now))
  {
    InactiveStays(b, s, ms, now);
    InactiveStays(b, p, NoSyncs(ms), now);
  }

  lemma {:induction false} StreamItems(ms: seq<Msg>)
    requires forall i :: 0 <= i < |ms| ==> ms[i].ItemMsg? || ms[i] == SyncSignalReq
    ensures NoSyncs(ms) == ItemMsgs(ItemsOf(ms))
  {
    if ms != [] {
      StreamItems(ms[1..]);
    } else {
      assert |ItemMsgs([])| == 0;
    }
  }

  /** A package ends with its only end item. */
  ghost predicate EndsOnce(package: seq<Item>) {
    forall i :: 0 <= i < |package| && package[i] == SnapshotEnd ==> i == |package| - 1
  }

  lemma {:induction false} ItemIsThere(ms: seq<Msg>, item: Item)
    requires ItemMsg(item) in ms
    ensures item in ItemsOf(ms)
  {
    if ms[0] != ItemMsg(item) {
      ItemIsThere(ms[1..], item);
    }
  }

  /** Whatever fails on the way, a client reports at most once, and if it reports success it has read
      the whole package and the builder got what it would get from the package in one piece. */
  lemma {:induction false} SuccessIsWhole(c: Setup, ws: map<string, Worker>, faults: seq<Fault>, t: Sys)
    requires EndsOnce(c.package) && Reaches(c, Init(c, ws), faults, t)
    ensures t.client.completed == [] || t.client.completed == [0] || t.client.completed == [-1]
    ensures t.client.completed == [0] ==>
              && ItemsOf(t.taken) == c.package
              && WholeRead(c, |c.package|).completed == [0]
              && t.client.calls == WholeRead(c, |c.package|).calls
  {
    hide Reaches, Read, Sent, Init, Reader.Active;
    InitSafe(c, ws);
    ReachesSafe(c, Init(c, ws), faults, t);
    var r0 := StartedReader(c.calls);
    ReadReports(c.builder, r0, t.taken, c.now);
    assert [] + [-1] == [-1];
    if t.client.completed == [0] {
      assert t.client == Read(c.builder, r0, t.taken, c.now) by {
        assert ([] + [-1])[0] == -1;
      }
      TakenIsWhole(c, t);
      SuccessWithoutSyncs(c.builder, r0, r0, t.taken, c.now);
    }
  }

  lemma {:induction false} InitSafe(c: Setup, ws: map<string, Worker>)
    ensures Safe(c, Init(c, ws))
  {
  }

  lemma {:induction false} TakenIsWhole(c: Setup, t: Sys)
    requires EndsOnce(c.package) && Safe(c, t) && ItemMsg(SnapshotEnd) in t.taken
    ensures ItemsOf(t.taken) == c.package
    ensures NoSyncs(t.taken) == Whole(c, |c.package|)
  {
    hide ClientOk, Sent, EndsOnce, ItemsOf, NoSyncs;
    WasAccepted(c, t);
    EndIsLast(c, t);
    var rest := t.taken[1..];
    TakenFrame(t.taken, t.down);
    StreamItems(rest);
    ReplyFirst(rest);
    assert c.package[..|c.package|] == c.package;
  }

  lemma {:induction false} WasAccepted(c: Setup, t: Sys)
    requires Safe(c, t) && ItemMsg(SnapshotEnd) in t.taken
    ensures t.accepted && Sent(c, t) && Stream(t.taken + t.down) && t.taken != []
  {
    hide ClientOk, Stream;
    assert |t.up| > 0 ==> t.up[0] != Request;
    assert forall i :: 0 <= i < |t.taken| ==> t.taken[i] == (t.taken + t.down)[i];
  }

  lemma {:induction false} EndIsLast(c: Setup, t: Sys)
    requires EndsOnce(c.package) && Sent(c, t) && ItemMsg(SnapshotEnd) in t.taken
    ensures ItemsOf(t.taken) == c.package
  {
    hide ItemsOf, Stream;
    ItemIsThere(t.taken, SnapshotEnd);
    ItemsOfAppend(t.taken, t.down);
    var items := ItemsOf(t.taken);
    var i :| 0 <= i < |items| && items[i] == SnapshotEnd;
    assert c.package[i] == SnapshotEnd;
    assert items == c.package[..|items|];
    assert |items| == |c.package|;
  }

  lemma {:induction false} TakenFrame(taken: seq<Msg>, down: seq<Msg>)
    requires Stream(taken + down) && taken != []
    ensures taken == [SnapshotRep(0)] + taken[1..]
    ensures forall j :: 0 <= j < |taken[1..]| ==> taken[1..][j].ItemMsg? || taken[1..][j] == SyncSignalReq
  {
    var all := taken + down;
    assert taken[0] == all[0];
    forall j | 0 <= j < |taken[1..]|
      ensures taken[1..][j].ItemMsg? || taken[1..][j] == SyncSignalReq
    {
      assert taken[1..][j] == all[j + 1];
    }
  }

  lemma {:induction false} ReplyFirst(rest: seq<Msg>)
    ensures ItemsOf([SnapshotRep(0)] + rest) == ItemsOf(rest)
    ensures NoSyncs([SnapshotRep(0)] + rest) == [SnapshotRep(0)] + NoSyncs(rest)
  {
    assert ([SnapshotRep(0)] + rest)[1..] == rest;
  }
}
