/** Every run of a transfer ends, and its outcome depends on the server's places and batch size only. */
module TransferRuns {
  import opened Package
  import opened ProductSpec
  import opened ReaderSpec
  import opened ReaderGrammar
  import opened ServerSpec
  import opened Sweep
  import opened Transfer
  import opened TransferResult

  /** A package that the builder will take arrives, and a batch holds at least two items. */
  predicate Fits(c: Setup) {
    Readable(c) && c.period >= 2
  }

  /** With batches of fewer than two items the first batch ends in front of the first region, so the
      client meets a sync request where it does not take one. */
  ghost predicate Stuck(c: Setup, s: Sys)
    requires c.period <= |c.package|
  {
    s.accepted && s.up != [Request] ==> s.up == [] && s.taken + s.down == Whole(c, c.period) + [SyncSignalReq]
  }

  ghost predicate Good(c: Setup, s: Sys) {
    && Inv(c, s)
    && (c.period >= 2 ==> OnCourse(c, s))
    && (c.period < 2 ==> |c.package| >= 3 && Stuck(c, s))
  }

  lemma {:induction false} InitGood(c: Setup, ws: map<string, Worker>)
    requires Readable(c)
    ensures Good(c, Init(c, ws))
  {
    hide Readable;
    InitInv(c, ws);
    WholeEnds(c);
  }

  /** What the server has sent when it has taken a signal. */
  lemma {:induction false} Served(c: Setup, s: Sys, now: nat)
    requires Inv(c, s) && s.up != [] && c.package != []
    ensures var t := Serve(c, s, now);
            && t.taken == s.taken && t.client == s.client && t.up == []
            && (t.accepted && s.up == [Request] && c.period < |c.package| ==>
                  t.down == Whole(c, c.period) + [SyncSignalReq])
            && (t.accepted ==> Framed(t))
  {
    hide Serve, Inv, Framed, Whole;
    assert s.up == [s.up[0]] by {
      OneSignal(c, s);
    }
    if s.up[0] == Request {
      ServedRequest(c, s, now);
    } else {
      ServedReply(c, s, now);
    }
  }

  lemma {:induction false} OneSignal(c: Setup, s: Sys)
    requires Inv(c, s)
    ensures |s.up| <= 1
  {
  }

  lemma {:induction false} ServedRequest(c: Setup, s: Sys, now: nat)
    requires Inv(c, s) && s.up == [Request] && c.package != []
    ensures var t := Serve(c, s, now);
            && t.taken == s.taken && t.client == s.client && t.up == []
            && (t.accepted && c.period < |c.package| ==> t.down == Whole(c, c.period) + [SyncSignalReq])
            && (t.accepted ==> Framed(t))
  {
    hide SendBatch, ItemMsgs, Read, Counted, Conserved;
    BatchMoves(s.ws, c.requester, c.package, c.period, now, |c.package| + 1);
    FramedItems([SnapshotRep(0)], c.package[..Min(c.period, |c.package|)], Left(c, Serve(c, s, now)));
  }

  lemma {:induction false} ServedReply(c: Setup, s: Sys, now: nat)
    requires Inv(c, s) && |s.up| == 1 && s.up[0] == SyncReply
    ensures var t := Serve(c, s, now);
            && t.taken == s.taken && t.client == s.client && t.up == []
            && (t.accepted ==> Framed(t))
  {
    hide SendBatch, ItemMsgs, Read, Counted, ItemsOf;
    assert s.up != [Request];
    BatchMoves(s.ws, c.requester, Left(c, s), c.period, now, |Left(c, s)| + 2);
    FramedItems([], Left(c, s)[..Min(c.period, |Left(c, s)|)], Left(c, Serve(c, s, now)));
  }

  lemma {:induction false} FramedItems(pre: seq<Msg>, items: seq<Item>, left: seq<Item>)
    requires |pre| <= 1
    ensures var down := pre + (ItemMsgs(items) + if left == [] then [] else [SyncSignalReq]);
            forall i :: |pre| <= i < |down| ==> down[i].ItemMsg? || down[i] == SyncSignalReq
    ensures [] + (ItemMsgs(items) + if left == [] then [] else [SyncSignalReq])
         == ItemMsgs(items) + if left == [] then [] else [SyncSignalReq]
    ensures pre == [SnapshotRep(0)] && left != [] ==>
              pre + (ItemMsgs(items) + [SyncSignalReq]) == [SnapshotRep(0)] + ItemMsgs(items) + [SyncSignalReq]
  {
  }

  lemma {:induction false} ServeGood(c: Setup, s: Sys, now: nat)
    requires Good(c, s) && s.up != [] && Readable(c)
    ensures Good(c, Serve(c, s, now))
  {
    hide Read, Readable, Conserved, Counted, Serve, Whole, Framed;
    WholeEnds(c);
    DoInv(c, s, DoServe(now));
    Served(c, s, now);
    var t := Serve(c, s, now);
    assert t.up != [Request];
    if c.period >= 2 {
      if s.up == [Request] {
        assert s.taken == [];
      } else {
        ServeSame(c, s, now);
      }
    } else {
      assert t.taken + t.down == t.down || s.up != [Request];
    }
  }

  lemma {:induction false} ServeSame(c: Setup, s: Sys, now: nat)
    requires s.up != [] && s.up != [Request] && |s.up| == 1
    ensures Serve(c, s, now).accepted == s.accepted
  {
    assert s.up == [s.up[0]];
  }

  lemma {:induction false} OthersGood(c: Setup, s: Sys, ws: map<string, Worker>)
    requires Good(c, s) && OthersMove(c, s, ws) && c.package != []
    ensures Good(c, s.(ws := ws))
  {
    hide Read, Conserved, Counted, Whole;
    DoInv(c, s, DoOthers(ws));
    assert Framed(s) == Framed(s.(ws := ws));
  }

  lemma {:induction false} TimerGood(c: Setup, s: Sys, timeout: nat, now: nat)
    requires Good(c, s) && Enabled(c, s, DoTimer(timeout, now)) && c.package != []
    ensures Good(c, s.(ws := OnTimer(s.ws, timeout, now)))
  {
    hide Read, Conserved, Counted, Whole, OnTimer;
    TimerInv(c, s, timeout, now);
    assert Framed(s) == Framed(s.(ws := OnTimer(s.ws, timeout, now)));
  }

  /** The replies the client gives to one message. */
  lemma {:induction false} StuckConsume(c: Setup, s: Sys)
    requires Inv(c, s) && Readable(c) && c.period < 2 && |c.package| >= 3 && Stuck(c, s)
    requires s.down != [] && s.client.Active()
    ensures Stuck(c, Consume(c, s))
  {
    hide Step, Read, Readable, Conserved, Counted;
    if s.accepted {
      var t, m := Consume(c, s), s.down[0];
      NoReplyPending(c, s);
      ReplyIffSync(c.builder, s.client, m, c.now);
      assert t.taken + t.down == s.taken + s.down;
      if m == SyncSignalReq {
        SyncTooEarly(c, s);
      }
    }
  }

  lemma {:induction false} SyncTooEarly(c: Setup, s: Sys)
    requires Inv(c, s) && Readable(c) && c.period < 2 && |c.package| >= 3
    requires s.taken + s.down == Whole(c, c.period) + [SyncSignalReq]
    requires s.down != [] && s.down[0] == SyncSignalReq
    ensures var t := Step(c.builder, s.client, SyncSignalReq, c.now);
            t.completed == [-1] && t.phase == Inactive && t.syncs == s.client.syncs
  {
    hide Step, Read, Readable, Conserved, Counted;
    var j := |s.taken|;
    assert (Whole(c, c.period) + [SyncSignalReq])[j] == SyncSignalReq;
    assert j == 1 + c.period;
    assert s.taken == (Whole(c, c.period) + [SyncSignalReq])[..j];
    WholePhase(c, c.period);
    EarlyStep(c.builder, s.client, c.now);
  }

  lemma {:induction false} EarlyStep(b: Builder, r: Reader, now: nat)
    requires r.phase == WaitBegin || r.phase == WaitRegion
    ensures Step(b, r, SyncSignalReq, now) == r.Finish(-1)
  {
  }

  lemma {:induction false} DoGood(c: Setup, s: Sys, a: Act)
    requires Good(c, s) && Enabled(c, s, a) && Readable(c)
    ensures Good(c, Do(c, s, a))
  {
    hide Serve, Consume, Read, Readable, Inv, OnCourse, Stuck;
    WholeEnds(c);
    match a
    case DoServe(now) => ServeGood(c, s, now);
    case DoConsume =>
      DoInv(c, s, a);
      if c.period >= 2 {
        OnCourseConsume(c, s);
      } else {
        StuckConsume(c, s);
      }
    case DoOthers(ws) => OthersGood(c, s, ws);
    case DoTimer(timeout, now) => TimerGood(c, s, timeout, now);
  }

  /** `t` is reached from `s` by these steps. */
  ghost predicate Reaches(c: Setup, s: Sys, acts: seq<Act>, t: Sys)
    decreases |acts|
  {
    if acts == [] then s == t
    else Enabled(c, s, acts[0]) && Reaches(c, Do(c, s, acts[0]), acts[1..], t)
  }

  lemma {:induction false} ReachesGood(c: Setup, s: Sys, acts: seq<Act>, t: Sys)
    requires Good(c, s) && Readable(c) && Reaches(c, s, acts, t)
    ensures Good(c, t)
    decreases |acts|
  {
    hide Good, Do, Readable;
    if acts != [] {
      DoGood(c, s, acts[0]);
      ReachesGood(c, Do(c, s, acts[0]), acts[1..], t);
    }
  }

  lemma {:induction false} RefusedEnds(c: Setup, t: Sys)
    requires Inv(c, t) && Final(t) && !t.accepted
    ensures t.client == StartedReader(c.calls).Finish(-1)
  {
    hide Conserved, Counted, Step;
    var m := SnapshotRep(-1);
    assert t.taken == [] ==> t.client == StartedReader(c.calls);
    assert (t.taken + t.down)[0] == m;
    assert |t.taken + t.down| == 1;
    assert t.taken == [m];
    ReadOne(c.builder, StartedReader(c.calls), m, c.now);
    RefusedStep(c.builder, c.calls, c.now);
  }

  lemma {:induction false} RefusedStep(b: Builder, calls: seq<BuilderCall>, now: nat)
    ensures Step(b, StartedReader(calls), SnapshotRep(-1), now) == StartedReader(calls).Finish(-1)
  {
  }

  lemma {:induction false} UnfinishedGoesOn(c: Setup, t: Sys)
    requires Inv(c, t) && OnCourse(c, t) && t.up == [] && t.accepted && Fits(c)
    requires t.taken == [] || |ItemsOf(t.taken)| < |c.package|
    ensures t.client.Active() && t.down != []
  {
    hide Read, Readable, Counted, Step;
    if t.taken == [] {
      NothingRead(c, t);
    } else {
      WholeSucceeds(c, |ItemsOf(t.taken)|);
      assert t.client.Active();
    }
    assert t.down == [] ==> t.taken != [] && ItemsOf(t.taken) + ItemsOf([]) + [] == c.package;
  }

  lemma {:induction false} WholeArrives(c: Setup, t: Sys)
    requires Inv(c, t) && OnCourse(c, t) && Final(t) && t.accepted && Fits(c)
    ensures Left(c, t) == [] && SameButSyncs(t.client, WholeRead(c, |c.package|))
  {
    hide Read, Readable, Counted, Step;
    ItemsFit(c, t);
    if t.taken == [] || |ItemsOf(t.taken)| < |c.package| {
      UnfinishedGoesOn(c, t);
      assert false;
    }
    assert |ItemsOf(t.taken)| + |ItemsOf(t.down)| + |Left(c, t)| == |c.package|;
  }

  lemma {:induction false} StuckEnds(c: Setup, t: Sys)
    requires |c.package| >= 3 && c.period < 2 && Readable(c) && Inv(c, t) && Stuck(c, t) && Final(t) && t.accepted
    ensures t.client.completed == [-1] && !t.client.Active()
  {
    hide Read, Readable, Step, Conserved, Counted;
    var all := Whole(c, c.period) + [SyncSignalReq];
    assert t.taken == all[..|t.taken|];
    if |t.taken| == 0 {
      NothingRead(c, t);
    } else if |t.taken| < |all| {
      var k := |t.taken| - 1;
      assert t.taken == Whole(c, k);
      WholePhase(c, k);
    } else {
      assert t.taken == all;
      WholePhase(c, c.period);
      ReadAppend(c.builder, StartedReader(c.calls), Whole(c, c.period), [SyncSignalReq], c.now);
      ReadOne(c.builder, WholeRead(c, c.period), SyncSignalReq, c.now);
      EarlyStep(c.builder, WholeRead(c, c.period), c.now);
    }
  }

  /** However the steps of server, client and other requesters interleave: when neither side has
      anything left to do, the client has reported exactly once, and reported success exactly when
      the server took the request and a batch holds at least two items.  The builder then got
      exactly the calls it would have got from the package in one piece, and the server sent the
      package in ceil(n / period) batches. */
  lemma {:induction false} TransferOutcome(c: Setup, ws: map<string, Worker>, acts: seq<Act>, t: Sys)
    requires Readable(c) && Reaches(c, Init(c, ws), acts, t) && Final(t)
    ensures !t.client.Active()
    ensures t.client.completed == if t.accepted && c.period >= 2 then [0] else [-1]
    ensures t.accepted && c.period >= 2 ==>
              && t.client.calls == WholeRead(c, |c.package|).calls
              && Left(c, t) == []
              && t.batches == (|c.package| + c.period - 1) / c.period
  {
    hide Readable, Reaches, Inv, OnCourse, Stuck, Read, Left, Init, WholeRead;
    InitGood(c, ws);
    ReachesGood(c, Init(c, ws), acts, t);
    WholeEnds(c);
    if !t.accepted {
      RefusedEnds(c, t);
    } else if c.period >= 2 {
      WholeArrives(c, t);
      BatchesAreCeil(c, t);
    } else {
      StuckEnds(c, t);
    }
  }

  /** What is still to be done: a message in flight can give a signal, a signal a batch. */
  function Weight(ms: seq<Msg>): nat {
    if ms == [] then 0 else (if ms[0] == SyncSignalReq then 2 else 1) + Weight(ms[1..])
  }

  lemma {:induction false} WeightAppend(a: seq<Msg>, b: seq<Msg>)
    ensures Weight(a + b) == Weight(a) + Weight(b)
  {
    if a == [] {
      assert a + b == b;
    } else {
      assert (a + b)[1..] == a[1..] + b;
      WeightAppend(a[1..], b);
    }
  }

  lemma {:induction false} WeightItems(items: seq<Item>)
    ensures Weight(ItemMsgs(items)) == |items|
  {
    if items != [] {
      assert ItemMsgs(items)[1..] == ItemMsgs(items[1..]);
      WeightItems(items[1..]);
    }
  }

  function Remaining(c: Setup, s: Sys): nat {
    (if s.up == [Request] then 3 * |c.package| + 4 else (if s.accepted then 3 * |Left(c, s)| else 0) + |s.up|)
    + Weight(s.down)
  }

  lemma {:induction false} BatchWeight(items: seq<Item>, left: seq<Item>)
    ensures Weight(ItemMsgs(items) + if left == [] then [] else [SyncSignalReq]) ==
            |items| + if left == [] then 0 else 2
  {
    WeightItems(items);
    WeightAppend(ItemMsgs(items), [SyncSignalReq]);
    assert [SyncSignalReq][1..] == [];
    assert ItemMsgs(items) + [] == ItemMsgs(items);
  }

  /** Every step of the server or the client leaves less to do, so a transfer ends however they
      interleave; other requesters do not put it off. */
  lemma {:induction false} TransferEnds(c: Setup, s: Sys, a: Act)
    requires Inv(c, s) && Enabled(c, s, a) && c.package != [] && c.period > 0
    ensures if a.DoOthers? || a.DoTimer? then Remaining(c, Do(c, s, a)) == Remaining(c, s)
            else Remaining(c, Do(c, s, a)) < Remaining(c, s)
  {
    hide Step, Read, Counted, SendBatch, ItemMsgs;
    match a
    case DoServe(now) =>
      if s.up[0] == Request {
        assert s.up == [Request];
        ServeRequestWeight(c, s, now);
      } else {
        ServeReplyWeight(c, s, now);
      }
    case DoConsume =>
      ConsumeWeight(c, s);
    case DoOthers(ws) =>
    case DoTimer(timeout, now) => TimerInv(c, s, timeout, now);
  }

  lemma {:induction false} ConsumeWeight(c: Setup, s: Sys)
    requires Inv(c, s) && s.down != [] && s.client.Active()
    ensures Remaining(c, Consume(c, s)) < Remaining(c, s)
  {
    hide Step, Read, Counted;
    ReplyIffSync(c.builder, s.client, s.down[0], c.now);
    var t := Consume(c, s);
    assert !s.accepted ==> (s.taken + s.down)[|s.taken|] == s.down[0];
    assert s.up == [] && t.up != [Request] by {
      assert t.up != [] ==> t.up[0] == SyncReply;
    }
    assert Weight(s.down) == (if s.down[0] == SyncSignalReq then 2 else 1) + Weight(t.down);
  }

  lemma {:induction false} ServeRequestWeight(c: Setup, s: Sys, now: nat)
    requires Inv(c, s) && s.up == [Request] && c.package != [] && c.period > 0
    ensures Remaining(c, Serve(c, s, now)) < Remaining(c, s)
  {
    hide Read, Conserved, Counted, SendBatch, ItemMsgs;
    var t := Serve(c, s, now);
    assert [SnapshotRep(-1)][1..] == [];
    if Accepting(c, s.ws) {
      var n := Min(c.period, |c.package|);
      BatchMoves(s.ws, c.requester, c.package, c.period, now, |c.package| + 1);
      BatchWeight(c.package[..n], Left(c, t));
      var sent := ItemMsgs(c.package[..n]) + if Left(c, t) == [] then [] else [SyncSignalReq];
      assert t.down == [SnapshotRep(0)] + sent;
      assert t.down[1..] == sent;
      assert t.up != [Request];
    } else {
      assert t.down == [SnapshotRep(-1)];
      assert Weight(t.down) == 1;

    }
  }

  lemma {:induction false} ServeReplyWeight(c: Setup, s: Sys, now: nat)
    requires Inv(c, s) && s.up != [] && s.up[0] == SyncReply && c.period > 0
    ensures Remaining(c, Serve(c, s, now)) < Remaining(c, s)
  {
    hide Read, Counted, SendBatch, ItemMsgs;
    var t, left := Serve(c, s, now), Left(c, s);
    assert s.up != [Request] && s.accepted && left != [];
    var n := Min(c.period, |left|);
    BatchMoves(s.ws, c.requester, left, c.period, now, |left| + 2);
    BatchWeight(left[..n], Left(c, t));
    assert t.down == ItemMsgs(left[..n]) + if Left(c, t) == [] then [] else [SyncSignalReq];
    assert t.up != [Request] && |t.up| == 0;
    assert |Left(c, t)| == |left| - n;
  }
}
