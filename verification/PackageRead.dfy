/** Reading back a package: which packages the client takes, and what the builder gets from them. */
module PackageRead {
  import opened Types
  import opened Package
  import opened ProductSpec
  import opened ReaderSpec
  import opened ReaderGrammar
  import opened ServerSpec

  function ServiceCalls(id: string, s: seq<Service>, now: nat): (cs: seq<BuilderCall>)
    ensures |cs| == |s|
  {
    seq(|s|, i requires 0 <= i < |s| => CallService(id, s[i].Wire().Stamp(now)))
  }

  function PayloadCalls(id: string, s: seq<Payload>, now: nat): (cs: seq<BuilderCall>)
    ensures |cs| == |s|
  {
    seq(|s|, i requires 0 <= i < |s| => CallPayload(id, Payload(s[i].id, now)))
  }

  /** The records of a group in list order, stamped by the receiver. */
  function GroupCalls(g: Group, now: nat): seq<BuilderCall> {
    [CallRegion(g.region.Wire().Stamp(now))]
    + (ServiceCalls(g.region.id, g.services, now) + PayloadCalls(g.region.id, g.payloads, now))
  }

  function GroupsCalls(gs: seq<Group>, now: nat): seq<BuilderCall> {
    if gs == [] then [] else GroupCalls(gs[0], now) + GroupsCalls(gs[1..], now)
  }

  ghost predicate GoodBody(g: Group, now: nat) {
    && g.region.id != ""
    && (forall i :: 0 <= i < |g.services| ==> g.services[i].Wire().Stamp(now).Good())
    && (forall i :: 0 <= i < |g.payloads| ==> g.payloads[i].id != "")
  }

  /** There is a region, and every record is complete; only the id of the first region is looked at. */
  ghost predicate GoodGroups(gs: seq<Group>, now: nat) {
    && gs != []
    && (forall i :: 0 <= i < |gs| ==> GoodBody(gs[i], now))
    && (forall i :: 0 < i < |gs| ==> gs[i].region.Wire().Stamp(now).Good())
  }

  function BodyMsgs(g: Group): seq<Msg> {
    ItemMsgs(ServiceItems(g.services)) + ItemMsgs(PayloadItems(g.payloads))
  }

  function GroupMsgs(g: Group): seq<Msg> {
    [ItemMsg(RegionBegin(g.region.Wire()))] + (BodyMsgs(g) + [ItemMsg(RegionEnd(g.region.id, g.region.version))])
  }

  function GroupsMsgs(gs: seq<Group>): seq<Msg> {
    if gs == [] then [] else GroupMsgs(gs[0]) + GroupsMsgs(gs[1..])
  }

  function Reply(gs: seq<Group>): seq<Msg> {
    [SnapshotRep(0)] + ItemMsgs(PackageOf(gs))
  }

  lemma {:induction false} ItemMsgsAppend(a: seq<Item>, b: seq<Item>)
    ensures ItemMsgs(a + b) == ItemMsgs(a) + ItemMsgs(b)
  {
  }

  lemma {:induction false} GroupMessages(g: Group)
    ensures ItemMsgs(GroupItems(g)) == GroupMsgs(g)
  {
    var b, s, p, e :=
      RegionBegin(g.region.Wire()), ServiceItems(g.services), PayloadItems(g.payloads),
      RegionEnd(g.region.id, g.region.version);
    ItemMsgsAppend([b] + s + p, [e]);
    ItemMsgsAppend([b] + s, p);
    ItemMsgsAppend([b], s);
  }

  lemma {:induction false} GroupsMessages(gs: seq<Group>)
    ensures ItemMsgs(GroupsItems(gs)) == GroupsMsgs(gs)
  {
    hide GroupItems, GroupMsgs, ItemMsgs;
    if gs != [] {
      GroupMessages(gs[0]);
      GroupsMessages(gs[1..]);
      ItemMsgsAppend(GroupItems(gs[0]), GroupsItems(gs[1..]));
    } else {
      assert |ItemMsgs([])| == 0;
    }
  }

  lemma {:induction false} PackageMessages(gs: seq<Group>)
    ensures Reply(gs) == PREAMBLE + (GroupsMsgs(gs) + [ItemMsg(SnapshotEnd)])
  {
    GroupsMessages(gs);
    ItemMsgsAppend([SnapshotBegin] + GroupsItems(gs), [SnapshotEnd]);
    ItemMsgsAppend([SnapshotBegin], GroupsItems(gs));
  }

  // The body of a region

  lemma {:induction false} BodyCallsAppend(id: string, a: seq<Msg>, b: seq<Msg>, now: nat)
    ensures BodyCalls(id, a + b, now) == BodyCalls(id, a, now) + BodyCalls(id, b, now)
  {
    if a == [] {
      assert a + b == b;
    } else {
      assert (a + b)[1..] == a[1..] + b;
      BodyCallsAppend(id, a[1..], b, now);
    }
  }

  lemma {:induction false} ServicesRead(id: string, s: seq<Service>, now: nat)
    ensures BodyCalls(id, ItemMsgs(ServiceItems(s)), now) == ServiceCalls(id, s, now)
  {
    if s != [] {
      assert ItemMsgs(ServiceItems(s))[1..] == ItemMsgs(ServiceItems(s[1..]));
      ServicesRead(id, s[1..], now);
    }
  }

  lemma {:induction false} PayloadsRead(id: string, s: seq<Payload>, now: nat)
    ensures BodyCalls(id, ItemMsgs(PayloadItems(s)), now) == PayloadCalls(id, s, now)
  {
    if s != [] {
      assert ItemMsgs(PayloadItems(s))[1..] == ItemMsgs(PayloadItems(s[1..]));
      PayloadsRead(id, s[1..], now);
    }
  }

  lemma {:induction false} BodyRead(g: Group, now: nat)
    ensures GroupCalls(g, now) == [CallRegion(g.region.Wire().Stamp(now))] + BodyCalls(g.region.id, BodyMsgs(g), now)
    ensures GoodBody(g, now) <==> g.region.id != "" && forall m :: m in BodyMsgs(g) ==> InRegion(m, now)
    ensures forall m :: m in BodyMsgs(g) ==> !(m.ItemMsg? && m.item.RegionEnd?)
  {
    var ss, ps := ItemMsgs(ServiceItems(g.services)), ItemMsgs(PayloadItems(g.payloads));
    BodyCallsAppend(g.region.id, ss, ps, now);
    ServicesRead(g.region.id, g.services, now);
    PayloadsRead(g.region.id, g.payloads, now);
    if forall m :: m in BodyMsgs(g) ==> InRegion(m, now) {
      forall i | 0 <= i < |g.services|
        ensures g.services[i].Wire().Stamp(now).Good()
      {
        assert ss[i] in BodyMsgs(g);
      }
      forall i | 0 <= i < |g.payloads|
        ensures g.payloads[i].id != ""
      {
        assert ps[i] in BodyMsgs(g);
      }
    }
  }

  /** Reading the body of a region and going on. */
  lemma {:induction false} SucceedsBody(b: Builder, r: Reader, body: seq<Msg>, rest: seq<Msg>, now: nat)
    requires r.phase == InBody && r.lastRegion != "" && rest != []
    requires forall m :: m in body ==> !m.SyncSignalReq? && !(m.ItemMsg? && m.item.RegionEnd?)
    ensures var cs := BodyCalls(r.lastRegion, body, now);
            Succeeds(b, r, body + rest, now) <==>
            && (forall m :: m in body ==> InRegion(m, now))
            && Takes(b, r.calls, cs)
            && Succeeds(b, r.(calls := r.calls + cs), rest, now)
    decreases |body|
  {
    hide Step, HeadCalls, Takes, InRegion, Succeeds;
    if body == [] {
      assert body + rest == rest && r.calls + [] == r.calls;
      TakesNone(b, r.calls);
    } else {
      var m, tail := body[0], body[1..];
      var s, hs, ts := Step(b, r, m, now), HeadCalls(r.lastRegion, m, now), BodyCalls(r.lastRegion, tail, now);
      assert (body + rest)[0] == m && (body + rest)[1..] == tail + rest;
      assert m in body && forall x :: x in body <==> x == m || x in tail;
      BodyStep(b, r, m, now);
      StepSyncs(b, r, m, now);
      TakesAppend(b, r.calls, hs, ts);
      SucceedsUnfold(b, r, body + rest, now);
      if s.Active() {
        SucceedsBody(b, s, tail, rest, now);
        assert s.calls + ts == r.calls + (hs + ts);
      } else {
        NoSuccess(b, s, tail + rest, now);
      }
    }
  }

  lemma {:induction false} TakesNone(b: Builder, calls: seq<BuilderCall>)
    ensures Takes(b, calls, [])
  {
  }

  lemma {:induction false} StepSyncs(b: Builder, r: Reader, m: Msg, now: nat)
    requires !m.SyncSignalReq?
    ensures Step(b, r, m, now).syncs == r.syncs
  {
  }

  lemma {:induction false} NoSuccess(b: Builder, r: Reader, ms: seq<Msg>, now: nat)
    requires !r.Active()
    ensures !Succeeds(b, r, ms, now)
  {
  }

  lemma {:induction false} SucceedsUnfold(b: Builder, r: Reader, ms: seq<Msg>, now: nat)
    requires |ms| > 1 && r.Active()
    ensures Succeeds(b, r, ms, now) <==> Succeeds(b, Step(b, r, ms[0], now), ms[1..], now)
  {
    hide Step;
  }

  /** Reading one region, from its begin to its end, and going on. */
  lemma {:induction false} SucceedsGroup(b: Builder, r: Reader, g: Group, rest: seq<Msg>, now: nat)
    requires (r.phase == WaitRegion || r.phase == WaitNext) && r.lastRegion == "" && rest != []
    ensures Succeeds(b, r, GroupMsgs(g) + rest, now) <==>
            && GoodBody(g, now)
            && (r.phase == WaitNext ==> g.region.Wire().Stamp(now).Good())
            && Takes(b, r.calls, GroupCalls(g, now))
            && Succeeds(b, r.(phase := WaitNext, calls := r.calls + GroupCalls(g, now)), rest, now)
  {
    hide Step, Succeeds, Takes, BodyMsgs, InRegion, BodyCalls, GoodBody, Region.Good, GroupCalls;
    var region := g.region.Wire().Stamp(now);
    var m, e, body :=
      ItemMsg(RegionBegin(g.region.Wire())), ItemMsg(RegionEnd(g.region.id, g.region.version)), BodyMsgs(g);
    var c, cs := CallRegion(region), BodyCalls(g.region.id, body, now);
    var ms := GroupMsgs(g) + rest;
    assert ms == [m] + (body + ([e] + rest));
    assert ms[1..] == body + ([e] + rest);
    SucceedsUnfold(b, r, ms, now);
    BodyRead(g, now);
    TakesAppend(b, r.calls, [c], cs);
    OpenStep(b, r, g.region.Wire(), now);
    var s := Step(b, r, m, now);
    if !s.Active() {
      NoSuccess(b, s, ms[1..], now);
    } else if region.id == "" {
      EmptyRegionFails(b, s, ms[1..], now);
      assert !GoodBody(g, now);
    } else {
      NoSyncs(g);
      SucceedsBody(b, s, body, [e] + rest, now);
      var t := s.(calls := s.calls + cs);
      assert t.calls == r.calls + ([c] + cs);
      assert ([e] + rest)[1..] == rest;
      BodyStep(b, t, e, now);
      SucceedsUnfold(b, t, [e] + rest, now);
    }
  }

  lemma {:induction false} EmptyRegionFails(b: Builder, r: Reader, ms: seq<Msg>, now: nat)
    requires r.phase == InBody && r.lastRegion == "" && |ms| > 1
    ensures !Succeeds(b, r, ms, now)
  {
    NoEmptyRegion(b, r, ms, now);
  }

  lemma {:induction false} NoSyncs(g: Group)
    ensures forall m :: m in BodyMsgs(g) ==> !m.SyncSignalReq?
  {
  }

  lemma {:induction false} OpenStep(b: Builder, r: Reader, region: RegionMsg, now: nat)
    requires (r.phase == WaitRegion || r.phase == WaitNext) && r.lastRegion == ""
    ensures var s, c := Step(b, r, ItemMsg(RegionBegin(region)), now), CallRegion(region.Stamp(now));
            && (s.Active() <==> (r.phase == WaitNext ==> region.Stamp(now).Good()) && Takes(b, r.calls, [c]))
            && (s.Active() ==> s == r.(phase := InBody, lastRegion := region.id, calls := r.calls + [c]))
  {
    hide Region.Good;
    var c := CallRegion(region.Stamp(now));
    assert [c][1..] == [];
  }

  /** Reading regions up to the end of the snapshot. */
  lemma {:induction false} SucceedsGroups(b: Builder, r: Reader, gs: seq<Group>, now: nat)
    requires r.phase == WaitNext && r.lastRegion == ""
    ensures Succeeds(b, r, GroupsMsgs(gs) + [ItemMsg(SnapshotEnd)], now) <==>
            && (forall i :: 0 <= i < |gs| ==> GoodBody(gs[i], now) && gs[i].region.Wire().Stamp(now).Good())
            && Takes(b, r.calls, GroupsCalls(gs, now))
    decreases |gs|
  {
    hide Step, Succeeds, Takes, GroupMsgs, GoodBody, Region.Good, GroupCalls;
    var e := [ItemMsg(SnapshotEnd)];
    if gs == [] {
      assert GroupsMsgs(gs) + e == e;
      TakesNone(b, r.calls);
      EndSucceeds(b, r, now);
    } else {
      var g, tail := gs[0], gs[1..];
      assert GroupsMsgs(gs) + e == GroupMsgs(g) + (GroupsMsgs(tail) + e);
      SucceedsGroup(b, r, g, GroupsMsgs(tail) + e, now);
      TakesAppend(b, r.calls, GroupCalls(g, now), GroupsCalls(tail, now));
      SucceedsGroups(b, r.(calls := r.calls + GroupCalls(g, now)), tail, now);
      AllOrFirst(gs, now);
    }
  }

  lemma {:induction false} AllOrFirst(gs: seq<Group>, now: nat)
    requires gs != []
    ensures (forall i :: 0 <= i < |gs| ==> GoodBody(gs[i], now) && gs[i].region.Wire().Stamp(now).Good()) <==>
            && GoodBody(gs[0], now) && gs[0].region.Wire().Stamp(now).Good()
            && forall i :: 0 <= i < |gs[1..]| ==>
                             GoodBody(gs[1..][i], now) && gs[1..][i].region.Wire().Stamp(now).Good()
  {
    hide GoodBody, Region.Good;
    forall i | 0 < i < |gs|
      ensures gs[i] == gs[1..][i - 1]
    {
    }
  }

  lemma {:induction false} EndSucceeds(b: Builder, r: Reader, now: nat)
    requires r.phase == WaitNext && r.lastRegion == ""
    ensures Succeeds(b, r, [ItemMsg(SnapshotEnd)], now)
  {
  }

  /** The client takes a package exactly when it holds a region, all its records are complete and
      the builder takes them; a package without a region is refused. */
  lemma {:induction false} PackageSucceedsIff(b: Builder, calls: seq<BuilderCall>, gs: seq<Group>, now: nat)
    ensures Succeeds(b, StartedReader(calls), Reply(gs), now) <==>
            GoodGroups(gs, now) && Takes(b, calls, GroupsCalls(gs, now))
  {
    hide Step, Succeeds, Takes, GroupMsgs, GoodBody, Region.Good, GroupCalls, Read;
    var r0, e := StartedReader(calls), [ItemMsg(SnapshotEnd)];
    var r1 := r0.(phase := WaitRegion);
    PackageMessages(gs);
    ReadPreamble(b, calls, now);
    SucceedsAppend(b, r0, PREAMBLE, GroupsMsgs(gs) + e, now);
    if gs == [] {
      assert GroupsMsgs(gs) + e == e;
      EmptyFails(b, r1, now);
    } else {
      var g, tail := gs[0], gs[1..];
      assert GroupsMsgs(gs) + e == GroupMsgs(g) + (GroupsMsgs(tail) + e);
      SucceedsGroup(b, r1, g, GroupsMsgs(tail) + e, now);
      TakesAppend(b, calls, GroupCalls(g, now), GroupsCalls(tail, now));
      SucceedsGroups(b, r1.(phase := WaitNext, calls := calls + GroupCalls(g, now)), tail, now);
      FirstAndRest(gs, now);
    }
  }

  lemma {:induction false} FirstAndRest(gs: seq<Group>, now: nat)
    requires gs != []
    ensures GoodGroups(gs, now) <==>
            && GoodBody(gs[0], now)
            && forall i :: 0 <= i < |gs[1..]| ==>
                             GoodBody(gs[1..][i], now) && gs[1..][i].region.Wire().Stamp(now).Good()
  {
    hide GoodBody, Region.Good;
    forall i | 0 < i < |gs|
      ensures gs[i] == gs[1..][i - 1]
    {
    }
  }

  lemma {:induction false} EmptyFails(b: Builder, r: Reader, now: nat)
    requires r.phase == WaitRegion
    ensures !Succeeds(b, r, [ItemMsg(SnapshotEnd)], now)
  {
    assert (r.completed + [-1])[|r.completed|] == -1;
  }

  /** A package that is taken gives the builder exactly the records of its groups, in list order. */
  lemma {:induction false} PackageCalls(b: Builder, calls: seq<BuilderCall>, gs: seq<Group>, now: nat)
    requires GoodGroups(gs, now) && Takes(b, calls, GroupsCalls(gs, now))
    ensures Read(b, StartedReader(calls), Reply(gs), now).calls == calls + GroupsCalls(gs, now)
  {
    hide Step, Succeeds, Takes, GroupMsgs, GoodBody, Region.Good, GroupCalls, Read, BlockMsgs, Closed, BlockCalls;
    PackageMessages(gs);
    BlocksOfGroups(gs, now);
    GrammarSucceeds(b, calls, BlocksOf(gs), now);
  }

  function BlockOf(g: Group): Block {
    Block(g.region.Wire(), BodyMsgs(g), g.region.version, [])
  }

  function BlocksOf(gs: seq<Group>): (ks: seq<Block>)
    ensures |ks| == |gs|
  {
    seq(|gs|, i requires 0 <= i < |gs| => BlockOf(gs[i]))
  }

  lemma {:induction false} BlocksOfGroups(gs: seq<Group>, now: nat)
    requires forall i :: 0 <= i < |gs| ==> GoodBody(gs[i], now)
    ensures forall i :: 0 <= i < |gs| ==> Closed(BlocksOf(gs)[i], now)
    ensures BlocksMsgs(BlocksOf(gs)) == GroupsMsgs(gs)
    ensures BlocksCalls(BlocksOf(gs), now) == GroupsCalls(gs, now)
  {
    hide GroupMsgs, GoodBody, GroupCalls, BlockMsgs, Closed, BlockCalls, BlockOf;
    if gs != [] {
      var g, tail := gs[0], gs[1..];
      BlockOfGroup(g, now);
      assert BlocksOf(gs)[1..] == BlocksOf(tail);
      BlocksOfGroups(tail, now);
      forall i | 0 < i < |gs|
        ensures Closed(BlocksOf(gs)[i], now)
      {
        assert BlocksOf(gs)[i] == BlocksOf(tail)[i - 1];
      }
    }
  }

  lemma {:induction false} BlockOfGroup(g: Group, now: nat)
    requires GoodBody(g, now)
    ensures Closed(BlockOf(g), now)
    ensures BlockMsgs(BlockOf(g)) == GroupMsgs(g)
    ensures BlockCalls(BlockOf(g), now) == GroupCalls(g, now)
  {
    hide GoodBody, GroupCalls, InRegion, BodyMsgs, BodyCalls;
    BodyRead(g, now);
  }

  /** A package has one end, and it comes last. */
  lemma {:induction false} PackageEndsOnce(gs: seq<Group>, i: nat)
    requires i < |PackageOf(gs)| && PackageOf(gs)[i] == SnapshotEnd
    ensures i == |PackageOf(gs)| - 1
  {
    hide GroupsItems;
    NoEndInside(gs);
    var items := GroupsItems(gs);
    var all := PackageOf(gs);
    forall j | 0 < j < |all| - 1
      ensures all[j] in items
    {
      assert all[j] == items[j - 1];
    }
  }

  lemma {:induction false} NoEndInside(gs: seq<Group>)
    ensures SnapshotEnd !in GroupsItems(gs)
  {
    if gs != [] {
      NoEndInside(gs[1..]);
      assert SnapshotEnd !in GroupItems(gs[0]);
    }
  }
}
