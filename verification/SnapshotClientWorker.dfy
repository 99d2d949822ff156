/** The snapshot client: one handler per state, rebound as messages arrive. */
module SnapshotClientWorker {
  import opened Types
  import opened Package
  import opened ProductSpec
  import opened ReaderSpec

  class SnapshotClientWorker {
    /** The builder's decisions; `calls` are the calls it has taken. */
    const builder: Builder
    var handler: Phase
    var lastRegion: string
    var calls: seq<BuilderCall>
    var syncs: nat
    var completed: seq<int>

    ghost function State(): Reader
      reads this
    {
      Reader(handler, lastRegion, calls, syncs, completed)
    }

    predicate IsActive()
      reads this
    {
      handler != Inactive && handler != Aborted
    }

    constructor (builder: Builder)
      ensures State() == Reader(Inactive, "", [], 0, [])
      ensures this.builder == builder
    {
      this.builder := builder;
      handler, lastRegion, calls, syncs, completed := Inactive, "", [], 0, [];
    }

    /** Sends the request; `connected` says whether connecting and sending worked. */
    method Start(connected: bool) returns (result: int)
      requires handler != Aborted
      modifies this
      ensures result == if old(IsActive()) || !connected then -1 else 0
      ensures old(IsActive()) ==> State() == old(State())
      ensures !old(IsActive()) ==>
                State() == old(State()).(phase := if connected then WaitRep else Inactive, lastRegion := "")
    {
      if IsActive() {
        return -1;
      }
      if !connected {
        Stop();
        return -1;
      }
      handler := WaitRep;
      lastRegion := "";
      return 0;
    }

    method Stop()
      modifies this`handler, this`lastRegion
      ensures handler == Inactive && lastRegion == ""
    {
      handler := Inactive;
      lastRegion := "";
    }

    method Finish(err: int)
      modifies this
      ensures State() == old(State()).Finish(err)
    {
      Stop();
      completed := completed + [err];
    }

    /** Hands a record to the builder. */
    method Offer(c: BuilderCall) returns (result: int)
      modifies this`calls
      ensures result == if builder(old(calls), c) then 0 else -1
      ensures calls == if builder(old(calls), c) then old(calls) + [c] else old(calls)
    {
      if builder(calls, c) {
        calls := calls + [c];
        return 0;
      }
      return -1;
    }

    /** The loop hands a message to the handler that is bound now. */
    method OnReadable(msg: Msg, now: nat)
      modifies this
      ensures State() == Step(builder, old(State()), msg, now)
    {
      match handler
      case WaitRep => OnReqReadable(msg, now);
      case WaitBegin => PullSnapshotBegin(msg, now);
      case WaitRegion => PullRegionBegin(msg, now);
      case InBody => PullRegionBody(msg, now);
      case WaitNext => PullRegionOrFinish(msg, now);
      case _ =>
    }

    method OnReqReadable(msg: Msg, now: nat)
      requires handler == WaitRep
      modifies this
      ensures State() == Step(builder, old(State()), msg, now)
    {
      if !msg.SnapshotRep? || msg.result != 0 {
        Finish(-1);
        return;
      }
      handler := WaitBegin;
    }

    method PullSnapshotBegin(msg: Msg, now: nat)
      requires handler == WaitBegin
      modifies this
      ensures State() == Step(builder, old(State()), msg, now)
    {
      if msg != ItemMsg(SnapshotBegin) {
        Finish(-1);
        return;
      }
      handler := WaitRegion;
    }

    method PullRegionBegin(msg: Msg, now: nat)
      requires handler == WaitRegion
      modifies this
      ensures State() == Step(builder, old(State()), msg, now)
    {
      if !msg.ItemMsg? || !msg.item.RegionBegin? {
        Finish(-1);
        return;
      }
      var region := msg.item.region.Stamp(now);
      var taken := Offer(CallRegion(region));
      if taken == -1 {
        Finish(-1);
        return;
      }
      lastRegion := region.id;
      handler := InBody;
    }

    method PullRegionBody(msg: Msg, now: nat)
      requires handler == InBody
      modifies this
      ensures State() == Step(builder, old(State()), msg, now)
    {
      if lastRegion == "" {
        handler := Aborted;
        return;
      }
      if msg.SyncSignalReq? {
        syncs := syncs + 1;
      } else if msg.ItemMsg? && msg.item.PayloadItem? {
        var pl := Payload(msg.item.uuid, now);
        if !pl.Good() {
          Finish(-1);
          return;
        }
        var taken := Offer(CallPayload(lastRegion, pl));
        if taken == -1 {
          Finish(-1);
        }
      } else if msg.ItemMsg? && msg.item.ServiceItem? {
        var svc := msg.item.service.Stamp(now);
        if !svc.Good() {
          Finish(-1);
          return;
        }
        var taken := Offer(CallService(lastRegion, svc));
        if taken == -1 {
          Finish(-1);
        }
      } else if msg.ItemMsg? && msg.item.RegionEnd? {
        if msg.item.id != lastRegion {
          Finish(-1);
          return;
        }
        lastRegion := "";
        handler := WaitNext;
      } else {
        Finish(-1);
      }
    }

    method PullRegionOrFinish(msg: Msg, now: nat)
      requires handler == WaitNext
      modifies this
      ensures State() == Step(builder, old(State()), msg, now)
    {
      if lastRegion != "" {
        handler := Aborted;
        return;
      }
      if msg.BadFrame? {
        Finish(-1);
      } else if msg.ItemMsg? && msg.item.RegionBegin? {
        var region := msg.item.region.Stamp(now);
        if !region.Good() {
          Finish(-1);
          return;
        }
        var taken := Offer(CallRegion(region));
        if taken == -1 {
          Finish(-1);
          return;
        }
        lastRegion := region.id;
        handler := InBody;
      } else if msg == ItemMsg(SnapshotEnd) {
        Finish(0);
      } else if msg.SyncSignalReq? {
        syncs := syncs + 1;
      }
    }

    method OnTimeoutTimer()
      requires IsActive()
      modifies this
      ensures State() == React(builder, old(State()), Timeout)
    {
      Finish(-1);
    }
  }
}
