/** The message sequences on which the snapshot client reports success. */
module ReaderGrammar {
  import opened Types
  import opened Package
  import opened ProductSpec
  import opened ReaderSpec

  /** One region on the wire: its begin, its body, the end that closes it, and what the client
      skips before the next region or the end of the snapshot. */
  datatype Block = Block(begin: RegionMsg, body: seq<Msg>, version: uint32, gap: seq<Msg>)

  predicate InRegion(m: Msg, now: nat) {
    || m.SyncSignalReq?
    || (m.ItemMsg? && m.item.ServiceItem? && m.item.service.Stamp(now).Good())
    || (m.ItemMsg? && m.item.PayloadItem? && m.item.uuid != "")
  }

  predicate Skipped(m: Msg) {
    !m.BadFrame? && !(m.ItemMsg? && (m.item.RegionBegin? || m.item.SnapshotEnd?))
  }

  ghost predicate Closed(k: Block, now: nat) {
    && k.begin.id != ""
    && (forall m :: m in k.body ==> InRegion(m, now))
    && (forall m :: m in k.gap ==> Skipped(m))
  }

  function BlockMsgs(k: Block): seq<Msg> {
    [ItemMsg(RegionBegin(k.begin))] + (k.body + ([ItemMsg(RegionEnd(k.begin.id, k.version))] + k.gap))
  }

  function BlocksMsgs(ks: seq<Block>): seq<Msg> {
    if ks == [] then [] else BlockMsgs(ks[0]) + BlocksMsgs(ks[1..])
  }

  const PREAMBLE := [SnapshotRep(0), ItemMsg(SnapshotBegin)]

  function Messages(ks: seq<Block>): seq<Msg> {
    PREAMBLE + (BlocksMsgs(ks) + [ItemMsg(SnapshotEnd)])
  }

  /** Every region is closed under its own id, and all but the first are complete. */
  ghost predicate Proper(ks: seq<Block>, now: nat) {
    && ks != []
    && (forall i :: 0 <= i < |ks| ==> Closed(ks[i], now))
    && (forall i :: 0 < i < |ks| ==> ks[i].begin.Stamp(now).Good())
  }

  function HeadCalls(id: string, m: Msg, now: nat): seq<BuilderCall> {
    match m
    case ItemMsg(ServiceItem(s)) => [CallService(id, s.Stamp(now))]
    case ItemMsg(PayloadItem(u)) => [CallPayload(id, Payload(u, now))]
    case _ => []
  }

  function BodyCalls(id: string, body: seq<Msg>, now: nat): seq<BuilderCall> {
    if body == [] then [] else HeadCalls(id, body[0], now) + BodyCalls(id, body[1..], now)
  }

  function BlockCalls(k: Block, now: nat): seq<BuilderCall> {
    [CallRegion(k.begin.Stamp(now))] + BodyCalls(k.begin.id, k.body, now)
  }

  function BlocksCalls(ks: seq<Block>, now: nat): seq<BuilderCall> {
    if ks == [] then [] else BlockCalls(ks[0], now) + BlocksCalls(ks[1..], now)
  }

  /** The builder takes the calls one after another. */
  predicate Takes(b: Builder, calls: seq<BuilderCall>, cs: seq<BuilderCall>)
    decreases |cs|
  {
    cs == [] || (b(calls, cs[0]) && Takes(b, calls + [cs[0]], cs[1..]))
  }

  lemma {:induction false} TakesAppend(b: Builder, calls: seq<BuilderCall>, cs: seq<BuilderCall>, ds: seq<BuilderCall>)
    ensures Takes(b, calls, cs + ds) <==> Takes(b, calls, cs) && Takes(b, calls + cs, ds)
    decreases |cs|
  {
    if cs == [] {
      assert cs + ds == ds && calls + cs == calls;
    } else {
      assert (cs + ds)[1..] == cs[1..] + ds;
      assert calls + [cs[0]] + cs[1..] == calls + cs;
      TakesAppend(b, calls + [cs[0]], cs[1..], ds);
    }
  }

  /** Reading messages one after another; one clock reading stamps them all. */
  function Read(b: Builder, r: Reader, ms: seq<Msg>, now: nat): Reader
    decreases |ms|
  {
    if ms == [] then r else Read(b, Step(b, r, ms[0], now), ms[1..], now)
  }

  lemma {:induction false} ReadAppend(b: Builder, r: Reader, ms: seq<Msg>, ns: seq<Msg>, now: nat)
    ensures Read(b, r, ms + ns, now) == Read(b, Read(b, r, ms, now), ns, now)
    decreases |ms|
  {
    hide Step;
    if ms == [] {
      assert ms + ns == ns;
    } else {
      assert (ms + ns)[1..] == ms[1..] + ns;
      ReadAppend(b, Step(b, r, ms[0], now), ms[1..], ns, now);
    }
  }

  /** The last message of `ms`, and none before it, makes the client report success. */
  predicate Succeeds(b: Builder, r: Reader, ms: seq<Msg>, now: nat): (succeeds: bool)
    ensures succeeds ==> ms != []
    decreases |ms|
  {
    && ms != [] && r.Active()
    && var s := Step(b, r, ms[0], now);
    if |ms| == 1 then s.completed == r.completed + [0] else Succeeds(b, s, ms[1..], now)
  }

  lemma {:induction false} SucceedsAppend(b: Builder, r: Reader, ms: seq<Msg>, ns: seq<Msg>, now: nat)
    requires Read(b, r, ms, now).Active() && ns != []
    ensures Succeeds(b, r, ms + ns, now) <==> Succeeds(b, Read(b, r, ms, now), ns, now)
    decreases |ms|
  {
    hide Step, Reader.Active;
    if ms == [] {
      assert ms + ns == ns;
    } else {
      assert (ms + ns)[1..] == ms[1..] + ns && (ms + ns)[0] == ms[0];
      SucceedsAppend(b, Step(b, r, ms[0], now), ms[1..], ns, now);
      if !r.Active() {
        InactiveStays(b, r, ms, now);
      }
    }
  }

  lemma {:induction false} SucceedsStep(b: Builder, r: Reader, ms: seq<Msg>, now: nat)
    requires Succeeds(b, r, ms, now) && Step(b, r, ms[0], now).completed != r.completed + [0]
    ensures |ms| > 1 && Step(b, r, ms[0], now).Active() && Succeeds(b, Step(b, r, ms[0], now), ms[1..], now)
  {
    hide Step;
    assert Succeeds(b, Step(b, r, ms[0], now), ms[1..], now);
  }

  lemma {:induction false} InactiveStays(b: Builder, r: Reader, ms: seq<Msg>, now: nat)
    requires !r.Active()
    ensures Read(b, r, ms, now) == r
    decreases |ms|
  {
    if ms != [] {
      assert Step(b, r, ms[0], now) == r;
      InactiveStays(b, r, ms[1..], now);
    }
  }

  /** Inside a region a message ends the region, or is taken, or ends the transfer without success. */
  lemma {:induction false} BodyStep(b: Builder, r: Reader, m: Msg, now: nat)
    requires r.phase == InBody && r.lastRegion != ""
    ensures var s, cs := Step(b, r, m, now), HeadCalls(r.lastRegion, m, now);
            && s.completed != r.completed + [0]
            && (if m.ItemMsg? && m.item.RegionEnd? && m.item.id == r.lastRegion then
                  s == r.(phase := WaitNext, lastRegion := "")
                else
                  && (s.Active() <==> InRegion(m, now) && Takes(b, r.calls, cs))
                  && (s.Active() ==> s == r.(calls := r.calls + cs, syncs := s.syncs)))
  {
    assert (r.completed + [-1])[|r.completed|] == -1;
    var cs := HeadCalls(r.lastRegion, m, now);
    assert cs != [] ==> cs[1..] == [];
  }

  /** Between regions a message opens a region, ends the snapshot, is skipped, or ends the transfer
      without success. */
  lemma {:induction false} NextStep(b: Builder, r: Reader, m: Msg, now: nat)
    requires r.phase == WaitNext && r.lastRegion == ""
    ensures var s := Step(b, r, m, now);
            if m == ItemMsg(SnapshotEnd) then s == r.Finish(0)
            else
              && s.completed != r.completed + [0]
              && (if m.ItemMsg? && m.item.RegionBegin? then
                    var region := m.item.region.Stamp(now);
                    && (s.Active() <==> region.Good() && b(r.calls, CallRegion(region)))
                    && (s.Active() ==>
                          s == r.(phase := InBody, lastRegion := region.id, calls := r.calls + [CallRegion(region)]))
                  else
                    && (s.Active() <==> Skipped(m))
                    && (s.Active() ==> s == r.(syncs := s.syncs)))
  {
    assert (r.completed + [-1])[|r.completed|] == -1;
  }

  /** Before the first region any message but the expected one ends the transfer without success. */
  lemma {:induction false} WaitStep(b: Builder, r: Reader, m: Msg, now: nat)
    requires r.phase in {WaitRep, WaitBegin, WaitRegion}
    ensures var s := Step(b, r, m, now);
            && s.completed != r.completed + [0]
            && (s.Active() ==>
                  && (r.phase == WaitRep ==> s == r.(phase := WaitBegin) && m == SnapshotRep(0))
                  && (r.phase == WaitBegin ==> s == r.(phase := WaitRegion) && m == ItemMsg(SnapshotBegin))
                  && (r.phase == WaitRegion ==>
                        && m.ItemMsg? && m.item.RegionBegin?
                        && b(r.calls, CallRegion(m.item.region.Stamp(now)))
                        && s == r.(phase := InBody, lastRegion := m.item.region.id,
                                calls := r.calls + [CallRegion(m.item.region.Stamp(now))])))
  {
    assert (r.completed + [-1])[|r.completed|] == -1;
  }

  // From the grammar to success

  lemma {:induction false} ReadBody(b: Builder, r: Reader, body: seq<Msg>, now: nat)
    requires r.phase == InBody && r.lastRegion != ""
    requires forall m :: m in body ==> InRegion(m, now)
    requires Takes(b, r.calls, BodyCalls(r.lastRegion, body, now))
    ensures var t := Read(b, r, body, now);
            t == r.(calls := r.calls + BodyCalls(r.lastRegion, body, now), syncs := t.syncs)
    decreases |body|
  {
    hide Step, HeadCalls, Takes, InRegion;
    if body != [] {
      assert InRegion(body[0], now);
      TakesAppend(b, r.calls, HeadCalls(r.lastRegion, body[0], now), BodyCalls(r.lastRegion, body[1..], now));
      BodyMessage(body[0], now);
      BodyStep(b, r, body[0], now);
      ReadBody(b, Step(b, r, body[0], now), body[1..], now);
    } else {
      assert r.calls + [] == r.calls;
    }
  }

  lemma {:induction false} BodyMessage(m: Msg, now: nat)
    requires InRegion(m, now)
    ensures !(m.ItemMsg? && m.item.RegionEnd?)
  {
  }

  lemma {:induction false} ReadGap(b: Builder, r: Reader, gap: seq<Msg>, now: nat)
    requires r.phase == WaitNext && r.lastRegion == ""
    requires forall m :: m in gap ==> Skipped(m)
    ensures var t := Read(b, r, gap, now);
            t == r.(syncs := t.syncs)
    decreases |gap|
  {
    hide Step;
    if gap != [] {
      assert Skipped(gap[0]);
      NextStep(b, r, gap[0], now);
      ReadGap(b, Step(b, r, gap[0], now), gap[1..], now);
    }
  }

  lemma {:induction false} ReadBlock(b: Builder, r: Reader, k: Block, now: nat)
    requires r.lastRegion == "" && Closed(k, now)
    requires r.phase == WaitRegion || (r.phase == WaitNext && k.begin.Stamp(now).Good())
    requires Takes(b, r.calls, BlockCalls(k, now))
    ensures var t := Read(b, r, BlockMsgs(k), now);
            t == r.(phase := WaitNext, calls := r.calls + BlockCalls(k, now), syncs := t.syncs)
  {
    hide BodyCalls, StepBody, StepNext;
    var region := k.begin.Stamp(now);
    var m, e := ItemMsg(RegionBegin(k.begin)), ItemMsg(RegionEnd(k.begin.id, k.version));
    TakesAppend(b, r.calls, [CallRegion(region)], BodyCalls(region.id, k.body, now));
    if r.phase == WaitNext {
      NextStep(b, r, m, now);
    }
    var s := Step(b, r, m, now);
    assert s == r.(phase := InBody, lastRegion := region.id, calls := r.calls + [CallRegion(region)]);
    ReadBody(b, s, k.body, now);
    var t := Read(b, s, k.body, now);
    BodyStep(b, t, e, now);
    ReadGap(b, Step(b, t, e, now), k.gap, now);
    ReadThree(b, r, m, k.body, e, k.gap, now);
  }

  lemma {:induction false} ReadThree(b: Builder, r: Reader, m: Msg, body: seq<Msg>, e: Msg, gap: seq<Msg>, now: nat)
    ensures Read(b, r, [m] + (body + ([e] + gap)), now)
         == Read(b, Step(b, Read(b, Step(b, r, m, now), body, now), e, now), gap, now)
  {
    hide Step;
    var s := Step(b, r, m, now);
    assert ([m] + (body + ([e] + gap)))[1..] == body + ([e] + gap);
    ReadAppend(b, s, body, [e] + gap, now);
    assert ([e] + gap)[1..] == gap;
  }

  lemma {:induction false} ReadBlocks(b: Builder, r: Reader, ks: seq<Block>, now: nat)
    requires r.phase == WaitNext && r.lastRegion == ""
    requires forall i :: 0 <= i < |ks| ==> Closed(ks[i], now) && ks[i].begin.Stamp(now).Good()
    requires Takes(b, r.calls, BlocksCalls(ks, now))
    ensures var t := Read(b, r, BlocksMsgs(ks), now);
            t == r.(calls := r.calls + BlocksCalls(ks, now), syncs := t.syncs)
    decreases |ks|
  {
    hide Closed, BlockMsgs, BlockCalls, Takes, Step;
    if ks != [] {
      TakesAppend(b, r.calls, BlockCalls(ks[0], now), BlocksCalls(ks[1..], now));
      ReadBlock(b, r, ks[0], now);
      var t := Read(b, r, BlockMsgs(ks[0]), now);
      ReadBlocks(b, t, ks[1..], now);
      ReadAppend(b, r, BlockMsgs(ks[0]), BlocksMsgs(ks[1..]), now);
    } else {
      assert r.calls + BlocksCalls(ks, now) == r.calls;
    }
  }

  lemma {:induction false} ReadPreamble(b: Builder, calls: seq<BuilderCall>, now: nat)
    ensures Read(b, StartedReader(calls), PREAMBLE, now) == StartedReader(calls).(phase := WaitRegion)
  {
    var r0 := StartedReader(calls);
    assert PREAMBLE[1..] == [ItemMsg(SnapshotBegin)];
    var s := Step(b, r0, PREAMBLE[0], now);
    assert s == r0.(phase := WaitBegin);
    assert Read(b, r0, PREAMBLE, now) == Read(b, s, PREAMBLE[1..], now);
    assert Read(b, s, PREAMBLE[1..], now) == Read(b, Step(b, s, ItemMsg(SnapshotBegin), now), [], now) by {
      assert PREAMBLE[1..][1..] == [];
    }
  }

  lemma {:induction false} GrammarSucceeds(b: Builder, calls: seq<BuilderCall>, ks: seq<Block>, now: nat)
    requires Proper(ks, now) && Takes(b, calls, BlocksCalls(ks, now))
    ensures Succeeds(b, StartedReader(calls), Messages(ks), now)
    ensures var t := Read(b, StartedReader(calls), Messages(ks), now);
            t == Reader(Inactive, "", calls + BlocksCalls(ks, now), t.syncs, [0])
  {
    hide Closed, BlockMsgs, BlockCalls, Takes;
    var r0 := StartedReader(calls);
    var r1 := r0.(phase := WaitRegion);
    ReadPreamble(b, calls, now);
    TakesAppend(b, calls, BlockCalls(ks[0], now), BlocksCalls(ks[1..], now));
    ReadBlock(b, r1, ks[0], now);
    var r2 := Read(b, r1, BlockMsgs(ks[0]), now);
    ReadBlocks(b, r2, ks[1..], now);
    var r3 := Read(b, r2, BlocksMsgs(ks[1..]), now);
    ReadAppend(b, r1, BlockMsgs(ks[0]), BlocksMsgs(ks[1..]), now);
    FinishRead(b, r0, PREAMBLE, r1, BlocksMsgs(ks), r3, now);
  }

  lemma {:induction false} FinishRead(b: Builder, r0: Reader, pre: seq<Msg>, r1: Reader, mid: seq<Msg>, r3: Reader,
                                      now: nat)
    requires Read(b, r0, pre, now) == r1 && Read(b, r1, mid, now) == r3
    requires r1.Active() && r3.phase == WaitNext && r3.lastRegion == ""
    ensures Succeeds(b, r0, pre + (mid + [ItemMsg(SnapshotEnd)]), now)
    ensures Read(b, r0, pre + (mid + [ItemMsg(SnapshotEnd)]), now) == r3.Finish(0)
  {
    var e := [ItemMsg(SnapshotEnd)];
    ReadAppend(b, r0, pre, mid + e, now);
    ReadAppend(b, r1, mid, e, now);
    assert Read(b, r3, e, now) == Read(b, r3.Finish(0), [], now) by {
      assert e[1..] == [];
    }
    SucceedsAppend(b, r0, pre, mid + e, now);
    SucceedsAppend(b, r1, mid, e, now);
  }

  // From success to the grammar

  lemma {:induction false} ParseNext(b: Builder, r: Reader, ms: seq<Msg>, now: nat)
    returns (gap: seq<Msg>, ks: seq<Block>)
    requires r.phase == WaitNext && r.lastRegion == "" && Succeeds(b, r, ms, now)
    ensures forall m :: m in gap ==> Skipped(m)
    ensures forall i :: 0 <= i < |ks| ==> Closed(ks[i], now) && ks[i].begin.Stamp(now).Good()
    ensures ms == gap + (BlocksMsgs(ks) + [ItemMsg(SnapshotEnd)])
    ensures Takes(b, r.calls, BlocksCalls(ks, now))
    decreases |ms|
  {
    hide Step, Closed, Succeeds, Skipped, BlocksMsgs, BlocksCalls, Takes;
    var m := ms[0];
    NextStep(b, r, m, now);
    if m == ItemMsg(SnapshotEnd) {
      gap, ks := [], [];
      EndIsLast(b, r, ms, now);
      NothingParsed(b, r.calls, now);
      assert [m] == gap + (BlocksMsgs(ks) + [m]);
    } else {
      SucceedsStep(b, r, ms, now);
      var s := Step(b, r, m, now);
      assert ms == [m] + ms[1..];
      if m.ItemMsg? && m.item.RegionBegin? {
        var body, version, gap', ks' := ParseBody(b, s, ms[1..], now);
        gap, ks := [], [Block(m.item.region, body, version, gap')] + ks';
        ParsedBlock(b, r, ms, m.item.region, body, version, gap', ks', now);
        ParsedClosed(Block(m.item.region, body, version, gap'), now);
        assert ms == [] + ms;
      } else {
        var gap', ks' := ParseNext(b, s, ms[1..], now);
        gap, ks := [m] + gap', ks';
      }
    }
  }

  lemma {:induction false} NothingParsed(b: Builder, calls: seq<BuilderCall>, now: nat)
    ensures BlocksMsgs([]) == [] && BlocksCalls([], now) == [] && Takes(b, calls, [])
  {
  }

  lemma {:induction false} EndIsLast(b: Builder, r: Reader, ms: seq<Msg>, now: nat)
    requires r.phase == WaitNext && r.lastRegion == "" && Succeeds(b, r, ms, now) && ms[0] == ItemMsg(SnapshotEnd)
    ensures ms == [ItemMsg(SnapshotEnd)]
  {
    hide Succeeds, Step;
    NextStep(b, r, ms[0], now);
    var s := Step(b, r, ms[0], now);
    if |ms| > 1 {
      SucceedsTail(b, r, ms, now);
      InactiveFails(b, s, ms[1..], now);
    }
  }

  lemma {:induction false} SucceedsTail(b: Builder, r: Reader, ms: seq<Msg>, now: nat)
    requires |ms| > 1 && Succeeds(b, r, ms, now)
    ensures Succeeds(b, Step(b, r, ms[0], now), ms[1..], now)
  {
    hide Step;
  }

  lemma {:induction false} InactiveFails(b: Builder, r: Reader, ms: seq<Msg>, now: nat)
    requires !r.Active()
    ensures !Succeeds(b, r, ms, now)
  {
  }

  lemma {:induction false} ParseBody(b: Builder, r: Reader, ms: seq<Msg>, now: nat)
    returns (body: seq<Msg>, version: uint32, gap: seq<Msg>, ks: seq<Block>)
    requires r.phase == InBody && r.lastRegion != "" && Succeeds(b, r, ms, now)
    ensures forall m :: m in body ==> InRegion(m, now)
    ensures forall m :: m in gap ==> Skipped(m)
    ensures forall i :: 0 <= i < |ks| ==> Closed(ks[i], now) && ks[i].begin.Stamp(now).Good()
    ensures ms ==
            body + ([ItemMsg(RegionEnd(r.lastRegion, version))] + (gap + (BlocksMsgs(ks) + [ItemMsg(SnapshotEnd)])))
    ensures Takes(b, r.calls, BodyCalls(r.lastRegion, body, now) + BlocksCalls(ks, now))
    decreases |ms|
  {
    hide Step, Takes, Closed, HeadCalls, Succeeds;
    var m := ms[0];
    BodyStep(b, r, m, now);
    SucceedsStep(b, r, ms, now);
    var s := Step(b, r, m, now);
    if m.ItemMsg? && m.item.RegionEnd? && m.item.id == r.lastRegion {
      version := m.item.version;
      gap, ks := ParseNext(b, s, ms[1..], now);
      body := [];
      assert BodyCalls(r.lastRegion, body, now) + BlocksCalls(ks, now) == BlocksCalls(ks, now);
      assert ms == [m] + ms[1..];
    } else {
      var body';
      body', version, gap, ks := ParseBody(b, s, ms[1..], now);
      body := [m] + body';
      var head, tail := HeadCalls(r.lastRegion, m, now), BodyCalls(r.lastRegion, body', now) + BlocksCalls(ks, now);
      assert body[1..] == body';
      assert BodyCalls(r.lastRegion, body, now) + BlocksCalls(ks, now) == head + tail;
      TakesAppend(b, r.calls, head, tail);
    }
  }

  lemma {:induction false} ParsedClosed(k: Block, now: nat)
    requires k.begin.id != ""
    requires forall m :: m in k.body ==> InRegion(m, now)
    requires forall m :: m in k.gap ==> Skipped(m)
    ensures Closed(k, now)
  {
  }

  lemma {:induction false} ParsedBlock(b: Builder, r: Reader, ms: seq<Msg>, begin: RegionMsg, body: seq<Msg>,
                                       version: uint32, gap: seq<Msg>, ks: seq<Block>, now: nat)
    requires ms != [] && ms[0] == ItemMsg(RegionBegin(begin))
    requires ms[1..] ==
             body + ([ItemMsg(RegionEnd(begin.id, version))] + (gap + (BlocksMsgs(ks) + [ItemMsg(SnapshotEnd)])))
    requires b(r.calls, CallRegion(begin.Stamp(now)))
    requires Takes(b, r.calls + [CallRegion(begin.Stamp(now))], BodyCalls(begin.id, body, now) + BlocksCalls(ks, now))
    ensures var all := [Block(begin, body, version, gap)] + ks;
            ms == BlocksMsgs(all) + [ItemMsg(SnapshotEnd)] && Takes(b, r.calls, BlocksCalls(all, now))
  {
    var k := Block(begin, body, version, gap);
    var all := [k] + ks;
    assert all[1..] == ks;
    assert ms == [ms[0]] + ms[1..];
    var c := CallRegion(begin.Stamp(now));
    var cs := BodyCalls(begin.id, body, now) + BlocksCalls(ks, now);
    assert BlocksCalls(all, now) == [c] + cs;
    assert ([c] + cs)[1..] == cs;
  }

  /** The client reports success on a message sequence exactly when it is a snapshot reply, the
      snapshot's begin, at least one region, each closed under its own id, and the snapshot's end,
      and the builder takes every record; the builder then got exactly those records in order. */
  lemma {:induction false} SucceedsIff(b: Builder, calls: seq<BuilderCall>, ms: seq<Msg>, now: nat)
    ensures Succeeds(b, StartedReader(calls), ms, now) <==>
            exists ks :: Proper(ks, now) && ms == Messages(ks) && Takes(b, calls, BlocksCalls(ks, now))
    ensures forall ks :: Proper(ks, now) && ms == Messages(ks) && Takes(b, calls, BlocksCalls(ks, now)) ==>
                           Read(b, StartedReader(calls), ms, now).calls == calls + BlocksCalls(ks, now)
  {
    hide Proper, Takes, Messages, Succeeds, Read;
    if Succeeds(b, StartedReader(calls), ms, now) {
      var ks := ParseAll(b, calls, ms, now);
    }
    forall ks | Proper(ks, now) && ms == Messages(ks) && Takes(b, calls, BlocksCalls(ks, now))
      ensures Succeeds(b, StartedReader(calls), ms, now)
      ensures Read(b, StartedReader(calls), ms, now).calls == calls + BlocksCalls(ks, now)
    {
      GrammarSucceeds(b, calls, ks, now);
    }
  }

  lemma {:induction false} ParseAll(b: Builder, calls: seq<BuilderCall>, ms: seq<Msg>, now: nat)
    returns (ks: seq<Block>)
    requires Succeeds(b, StartedReader(calls), ms, now)
    ensures Proper(ks, now) && ms == Messages(ks) && Takes(b, calls, BlocksCalls(ks, now))
  {
    hide Step, Takes, BlocksMsgs, BlocksCalls, Succeeds;
    var r0 := StartedReader(calls);
    WaitStep(b, r0, ms[0], now);
    SucceedsStep(b, r0, ms, now);
    var r1, m1 := Step(b, r0, ms[0], now), ms[1..];
    WaitStep(b, r1, m1[0], now);
    SucceedsStep(b, r1, m1, now);
    var r2, m2 := Step(b, r1, m1[0], now), m1[1..];
    WaitStep(b, r2, m2[0], now);
    SucceedsStep(b, r2, m2, now);
    var r3, m3 := Step(b, r2, m2[0], now), m2[1..];
    if r3.lastRegion == "" {
      NoEmptyRegion(b, r3, m3, now);
    }
    var begin := m2[0].item.region;
    var body, version, gap, ks' := ParseBody(b, r3, m3, now);
    ks := [Block(begin, body, version, gap)] + ks';
    ParsedBlock(b, r2, m2, begin, body, version, gap, ks', now);
    assert ms == PREAMBLE + m2;
  }

  lemma {:induction false} NoEmptyRegion(b: Builder, r: Reader, ms: seq<Msg>, now: nat)
    requires r.phase == InBody && r.lastRegion == ""
    ensures !Succeeds(b, r, ms, now)
  {
    assert |r.completed| != |r.completed + [0]|;
  }
}
