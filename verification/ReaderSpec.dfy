/** The snapshot client as an automaton over the messages it reads. */
module ReaderSpec {
  import opened Types
  import opened Package
  import opened ProductSpec

  /** What can arrive on the client's socket; `BadFrame` does not decode. */
  datatype Msg = SnapshotRep(result: int) | ItemMsg(item: Item) | SyncSignalReq | BadFrame

  datatype Phase = Inactive | WaitRep | WaitBegin | WaitRegion | InBody | WaitNext | Aborted

  /** `calls` are the builder calls that were accepted, `syncs` the sync replies sent and
      `completed` the results handed to the completion callback. */
  datatype Reader = Reader(phase: Phase, lastRegion: string, calls: seq<BuilderCall>, syncs: nat, completed: seq<int>) {
    function Finish(err: int): Reader {
      this.(phase := Inactive, lastRegion := "", completed := completed + [err])
    }

    predicate Active() {
      phase != Inactive && phase != Aborted
    }
  }

  /** A builder, seen by the client: whether it takes a call after the calls it took before. */
  type Builder = (seq<BuilderCall>, BuilderCall) -> bool

  function Offer(b: Builder, r: Reader, c: BuilderCall): Reader {
    if b(r.calls, c) then r.(calls := r.calls + [c]) else r.Finish(-1)
  }

  function OpenRegion(b: Builder, r: Reader, region: Region): Reader {
    var o := Offer(b, r, CallRegion(region));
    if o.Active() then o.(phase := InBody, lastRegion := region.id) else o
  }

  function StepBody(b: Builder, r: Reader, m: Msg, now: nat): Reader {
    match m
    case ItemMsg(PayloadItem(id)) =>
      if !Payload(id, now).Good() then r.Finish(-1) else Offer(b, r, CallPayload(r.lastRegion, Payload(id, now)))
    case ItemMsg(ServiceItem(s)) =>
      if !s.Stamp(now).Good() then r.Finish(-1) else Offer(b, r, CallService(r.lastRegion, s.Stamp(now)))
    case ItemMsg(RegionEnd(id, _)) =>
      if id != r.lastRegion then r.Finish(-1) else r.(phase := WaitNext, lastRegion := "")
    case SyncSignalReq => r.(syncs := r.syncs + 1)
    case _ => r.Finish(-1)
  }

  function StepNext(b: Builder, r: Reader, m: Msg, now: nat): Reader {
    match m
    case BadFrame => r.Finish(-1)
    case ItemMsg(RegionBegin(region)) =>
      if !region.Stamp(now).Good() then r.Finish(-1) else OpenRegion(b, r, region.Stamp(now))
    case ItemMsg(SnapshotEnd) => r.Finish(0)
    case SyncSignalReq => r.(syncs := r.syncs + 1)
    case _ => r
  }

  /** Reading one message.  A failing `CHECK` aborts the process. */
  function Step(b: Builder, r: Reader, m: Msg, now: nat): Reader {
    match r.phase
    case Inactive => r
    case Aborted => r
    case WaitRep => if m == SnapshotRep(0) then r.(phase := WaitBegin) else r.Finish(-1)
    case WaitBegin => if m == ItemMsg(SnapshotBegin) then r.(phase := WaitRegion) else r.Finish(-1)
    case WaitRegion =>
      if m.ItemMsg? && m.item.RegionBegin? then OpenRegion(b, r, m.item.region.Stamp(now)) else r.Finish(-1)
    case InBody => if r.lastRegion == "" then r.(phase := Aborted) else StepBody(b, r, m, now)
    case WaitNext => if r.lastRegion != "" then r.(phase := Aborted) else StepNext(b, r, m, now)
  }

  datatype Event = Recv(msg: Msg, now: nat) | Timeout

  function React(b: Builder, r: Reader, e: Event): Reader {
    match e
    case Recv(m, now) => Step(b, r, m, now)
    case Timeout => if r.Active() then r.Finish(-1) else r
  }

  function ReactAll(b: Builder, r: Reader, es: seq<Event>): Reader {
    if es == [] then r else React(b, ReactAll(b, r, es[..|es| - 1]), es[|es| - 1])
  }

  function StartedReader(calls: seq<BuilderCall>): Reader {
    Reader(WaitRep, "", calls, 0, [])
  }

  /** Over any events the callback fires at most once, and exactly when the client has stopped;
      after that nothing changes any more. */
  lemma {:induction false} CompletesAtMostOnce(b: Builder, calls: seq<BuilderCall>, es: seq<Event>, more: seq<Event>)
    ensures var r := ReactAll(b, StartedReader(calls), es);
            && |r.completed| <= 1
            && (r.completed != [] <==> r.phase == Inactive)
            && (r.lastRegion != "" ==> r.phase == InBody)
            && (r.completed != [] ==> ReactAll(b, r, more) == r)
  {
    if es != [] {
      CompletesAtMostOnce(b, calls, es[..|es| - 1], []);
    }
    var r := ReactAll(b, StartedReader(calls), es);
    if more != [] && r.completed != [] {
      StoppedStays(b, r, more);
    }
  }

  lemma {:induction false} StoppedStays(b: Builder, r: Reader, es: seq<Event>)
    requires r.phase == Inactive
    ensures ReactAll(b, r, es) == r
  {
    if es != [] {
      StoppedStays(b, r, es[..|es| - 1]);
    }
  }

  /** The only region taken so far is the first one, and its id is empty. */
  predicate OnlyEmptyRegion(r: Reader, calls: seq<BuilderCall>) {
    && r.phase == InBody && |r.calls| == |calls| + 1
    && r.calls[|calls|].CallRegion? && r.calls[|calls|].region.id == ""
  }

  ghost predicate Tracks(r: Reader, calls: seq<BuilderCall>) {
    && (r.phase in {WaitRep, WaitBegin, WaitRegion} ==> r.calls == calls)
    && (r.phase in {WaitRep, WaitBegin, WaitRegion, WaitNext, Inactive} ==> r.lastRegion == "")
    && |calls| <= |r.calls|
    && (r.phase == InBody ==> |calls| < |r.calls| && (r.lastRegion == "" <==> OnlyEmptyRegion(r, calls)))
    && (r.phase == WaitNext ==> |calls| < |r.calls|)
  }

  lemma {:induction false} TracksAlways(b: Builder, calls: seq<BuilderCall>, es: seq<Event>)
    ensures Tracks(ReactAll(b, StartedReader(calls), es), calls)
  {
    if es != [] {
      TracksAlways(b, calls, es[..|es| - 1]);
    }
  }

  /** The next event makes a `CHECK` fail exactly when it is a message and the client is inside its
      first region, whose id is empty: `pullRegionBegin` takes any region the builder takes. */
  lemma {:induction false} AbortsIff(b: Builder, calls: seq<BuilderCall>, es: seq<Event>, e: Event)
    requires ReactAll(b, StartedReader(calls), es).phase != Aborted
    ensures var r := ReactAll(b, StartedReader(calls), es);
            React(b, r, e).phase == Aborted <==> OnlyEmptyRegion(r, calls) && e.Recv?
  {
    TracksAlways(b, calls, es);
  }

  /** With non-empty ids no `CHECK` fails, and the last region is set exactly inside a region. */
  lemma {:induction false} BodyHasRegion(b: Builder, calls: seq<BuilderCall>, es: seq<Event>)
    requires forall i :: 0 <= i < |es| && es[i].Recv? && es[i].msg.ItemMsg? && es[i].msg.item.RegionBegin? ==>
                           es[i].msg.item.region.id != ""
    ensures var r := ReactAll(b, StartedReader(calls), es);
            r.phase != Aborted && (r.phase == InBody <==> r.lastRegion != "")
  {
    if es != [] {
      var init := es[..|es| - 1];
      BodyHasRegion(b, calls, init);
      assert es[|es| - 1].Recv? && es[|es| - 1].msg.ItemMsg? && es[|es| - 1].msg.item.RegionBegin? ==>
          es[|es| - 1].msg.item.region.id != "";
    }
  }
}
