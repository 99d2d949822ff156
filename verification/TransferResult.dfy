/** How a transfer ends: chunking is invisible to the client exactly when a batch holds two items. */
module TransferResult {
  import opened Package
  import opened ProductSpec
  import opened ReaderSpec
  import opened ReaderGrammar
  import opened ServerSpec
  import opened Transfer

  /** The package in one piece, as the client would read it without sync requests. */
  function Whole(c: Setup, k: nat): seq<Msg>
    requires k <= |c.package|
  {
    [SnapshotRep(0)] + ItemMsgs(c.package[..k])
  }

  function WholeRead(c: Setup, k: nat): Reader
    requires k <= |c.package|
  {
    Read(c.builder, StartedReader(c.calls), Whole(c, k), c.now)
  }

  predicate Readable(c: Setup) {
    Succeeds(c.builder, StartedReader(c.calls), Whole(c, |c.package|), c.now)
  }

  predicate SameButSyncs(r: Reader, t: Reader) {
    r.(syncs := 0) == t.(syncs := 0)
  }

  lemma {:induction false} StepIgnoresSyncs(b: Builder, r: Reader, t: Reader, m: Msg, now: nat)
    requires SameButSyncs(r, t)
    ensures SameButSyncs(Step(b, r, m, now), Step(b, t, m, now))
  {
    hide Step;
    StepWithoutSyncs(b, r, m, now);
    StepWithoutSyncs(b, t, m, now);
  }

  lemma {:induction false} StepWithoutSyncs(b: Builder, r: Reader, m: Msg, now: nat)
    ensures Step(b, r, m, now).(syncs := 0) == Step(b, r.(syncs := 0), m, now).(syncs := 0)
  {
    hide StepBody, StepNext;
    if r.phase == InBody {
      BodyWithoutSyncs(b, r, m, now);
    } else if r.phase == WaitNext {
      NextWithoutSyncs(b, r, m, now);
    }
  }

  lemma {:induction false} BodyWithoutSyncs(b: Builder, r: Reader, m: Msg, now: nat)
    ensures StepBody(b, r, m, now).(syncs := 0) == StepBody(b, r.(syncs := 0), m, now).(syncs := 0)
  {
  }

  lemma {:induction false} NextWithoutSyncs(b: Builder, r: Reader, m: Msg, now: nat)
    ensures StepNext(b, r, m, now).(syncs := 0) == StepNext(b, r.(syncs := 0), m, now).(syncs := 0)
  {
  }

  /** Inside and between regions a sync request changes nothing but the count of replies. */
  predicate SyncSafe(r: Reader) {
    (r.phase == InBody && r.lastRegion != "") || (r.phase == WaitNext && r.lastRegion == "")
  }

  lemma {:induction false} PrefixReads(b: Builder, r: Reader, ms: seq<Msg>, j: nat, now: nat)
    requires Succeeds(b, r, ms, now) && j < |ms|
    ensures Succeeds(b, Read(b, r, ms[..j], now), ms[j..], now)
    decreases j
  {
    hide Step;
    if j > 0 {
      assert ms[..j][1..] == ms[1..][..j - 1] && ms[j..] == ms[1..][j - 1..];
      PrefixReads(b, Step(b, r, ms[0], now), ms[1..], j - 1, now);
    } else {
      assert ms[..0] == [] && ms[0..] == ms;
    }
  }

  lemma {:induction false} WholeNext(c: Setup, k: nat)
    requires k < |c.package|
    ensures WholeRead(c, k + 1) == Step(c.builder, WholeRead(c, k), ItemMsg(c.package[k]), c.now)
  {
    hide Step, Read;
    assert c.package[..k + 1] == c.package[..k] + [c.package[k]];
    assert Whole(c, k + 1) == Whole(c, k) + [ItemMsg(c.package[k])];
    ReadAppend(c.builder, StartedReader(c.calls), Whole(c, k), [ItemMsg(c.package[k])], c.now);
    ReadOne(c.builder, WholeRead(c, k), ItemMsg(c.package[k]), c.now);
  }

  lemma {:induction false} WholeSucceeds(c: Setup, k: nat)
    requires Readable(c) && k < |c.package|
    ensures WholeRead(c, k).Active()
    ensures Succeeds(c.builder, WholeRead(c, k), ItemMsgs(c.package[k..]), c.now)
  {
    hide Read, Step;
    var ms := Whole(c, |c.package|);
    assert c.package[..|c.package|] == c.package;
    PrefixReads(c.builder, StartedReader(c.calls), ms, k + 1, c.now);
    assert ms[..k + 1] == Whole(c, k);
    assert ms[k + 1..] == ItemMsgs(c.package[k..]);
  }

  /** While the client reads a package it will accept, it waits for the begin, then for the first
      region, and after two items it is where a sync request does no harm. */
  lemma {:induction false} WholePhase(c: Setup, k: nat)
    requires Readable(c) && k < |c.package|
    ensures k == 0 ==> WholeRead(c, k) == StartedReader(c.calls).(phase := WaitBegin)
    ensures k == 1 ==> WholeRead(c, k) == StartedReader(c.calls).(phase := WaitRegion)
    ensures k >= 2 ==> SyncSafe(WholeRead(c, k)) && WholeRead(c, k).completed == []
    decreases k
  {
    hide Read, Step, Succeeds, Readable;
    if k == 0 {
      assert Whole(c, 0) == [SnapshotRep(0)];
      ReadOne(c.builder, StartedReader(c.calls), SnapshotRep(0), c.now);
      FirstReply(c.builder, c.calls, c.now);
    } else {
      WholePhase(c, k - 1);
      WholeNext(c, k - 1);
      WholeSucceeds(c, k);
      PhaseAfter(c.builder, WholeRead(c, k - 1), c.package[k - 1], c.now);
      if WholeRead(c, k).phase == InBody && WholeRead(c, k).lastRegion == "" {
        NoEmptyRegion(c.builder, WholeRead(c, k), ItemMsgs(c.package[k..]), c.now);
      }
    }
  }

  lemma {:induction false} FirstReply(b: Builder, calls: seq<BuilderCall>, now: nat)
    ensures Step(b, StartedReader(calls), SnapshotRep(0), now) == StartedReader(calls).(phase := WaitBegin)
  {
  }

  lemma {:induction false} PhaseAfter(b: Builder, r: Reader, item: Item, now: nat)
    requires Step(b, r, ItemMsg(item), now).Active()
    ensures var t := Step(b, r, ItemMsg(item), now);
            && (r.phase == WaitBegin ==> t == r.(phase := WaitRegion))
            && (r.phase == WaitRegion || SyncSafe(r) ==>
                  t.completed == r.completed && (t.phase == InBody || SyncSafe(t)))
  {
  }

  lemma {:induction false} WholeEnds(c: Setup)
    requires Readable(c)
    ensures |c.package| >= 3
    ensures WholeRead(c, |c.package|).completed == [0] && !WholeRead(c, |c.package|).Active()
  {
    if c.package != [] {
      LastItemEnds(c);
    }
  }

  lemma {:induction false} LastItemEnds(c: Setup)
    requires Readable(c) && c.package != []
    ensures |c.package| >= 3
    ensures WholeRead(c, |c.package|).completed == [0] && !WholeRead(c, |c.package|).Active()
  {
    hide Read, Step, Readable;
    var n := |c.package| - 1;
    WholePhase(c, n);
    WholeSucceeds(c, n);
    WholeNext(c, n);
    assert ItemMsgs(c.package[n..]) == [ItemMsg(c.package[n])];
    var r, m := WholeRead(c, n), ItemMsg(c.package[n]);
    if n < 2 {
      WaitStep(c.builder, r, m, c.now);
    } else if r.phase == InBody {
      BodyStep(c.builder, r, m, c.now);
    } else {
      NextStep(c.builder, r, m, c.now);
    }
  }

  /** Only the reply comes first, and everything behind it is an item or a sync request. */
  ghost predicate Framed(s: Sys) {
    forall i :: 0 <= i < |s.down| ==> s.down[i].ItemMsg? || s.down[i] == SyncSignalReq || (i == 0 && s.taken == [])
  }

  /** The client is where it would be after the same items of the whole package. */
  ghost predicate OnCourse(c: Setup, s: Sys) {
    s.accepted && s.up != [Request] ==>
      && Framed(s)
      && |ItemsOf(s.taken)| <= |c.package|
      && (s.taken != [] ==> SameButSyncs(s.client, WholeRead(c, |ItemsOf(s.taken)|)))
  }

  lemma {:induction false} OnCourseConsume(c: Setup, s: Sys)
    requires Inv(c, s) && OnCourse(c, s) && Readable(c) && c.period >= 2
    requires s.down != [] && s.client.Active()
    ensures OnCourse(c, Consume(c, s))
  {
    hide Step, Read, Readable, Conserved, Counted;
    if s.accepted {
      if s.taken == [] {
        NothingRead(c, s);
      }
      var t, m := Consume(c, s), s.down[0];
      var k := |ItemsOf(s.taken)|;
      NoReplyPending(c, s);
      ItemsOfAppend(s.taken, [m]);
      ItemsOfOne(m);
      ConsumeConserved(c, s);
      ItemsFit(c, t);
      OnCourseMessage(c, s, m, k);
      assert Framed(t) by {
        forall i | 0 <= i < |t.down|
          ensures t.down[i].ItemMsg? || t.down[i] == SyncSignalReq
        {
          assert t.down[i] == s.down[i + 1];
        }
      }
    }
  }

  lemma {:induction false} NothingRead(c: Setup, s: Sys)
    requires Inv(c, s) && s.taken == []
    ensures s.client == StartedReader(c.calls)
  {
  }

  lemma {:induction false} ItemsOfOne(m: Msg)
    ensures ItemsOf([m]) == if m.ItemMsg? then [m.item] else []
  {
    assert [m][1..] == [];
  }

  lemma {:induction false} ItemsFit(c: Setup, s: Sys)
    requires Conserved(c, s)
    ensures |ItemsOf(s.taken)| <= |c.package| && ItemsOf(s.taken) == c.package[..|ItemsOf(s.taken)|]
  {
  }

  /** The client after one more message, compared with the package read in one piece. */
  lemma {:induction false} OnCourseMessage(c: Setup, s: Sys, m: Msg, k: nat)
    requires Conserved(c, s) && Counted(c, s) && OnCourse(c, s) && Readable(c) && c.period >= 2
    requires s.accepted && s.up != [Request] && s.down != [] && s.down[0] == m
    requires s.client.Active() && k == |ItemsOf(s.taken)|
    requires s.taken == [] ==> s.client == StartedReader(c.calls)
    ensures var j := k + if m.ItemMsg? then 1 else 0;
            j <= |c.package| && SameButSyncs(Step(c.builder, s.client, m, c.now), WholeRead(c, j))
  {
    hide Step, Read, Readable;
    if s.taken == [] {
      assert (s.taken + s.down)[0] == m;
      assert Whole(c, 0) == [SnapshotRep(0)];
      ReadOne(c.builder, StartedReader(c.calls), m, c.now);
    } else if m.ItemMsg? {
      NextItem(c, s, k);
      WholeNext(c, k);
      StepIgnoresSyncs(c.builder, s.client, WholeRead(c, k), m, c.now);
    } else {
      assert m == SyncSignalReq;
      WholeEnds(c);
      SyncComesLate(c, s, k);
      WholePhase(c, k);
      SyncHarmless(c.builder, s.client, c.now);
    }
  }

  lemma {:induction false} SyncHarmless(b: Builder, r: Reader, now: nat)
    requires SyncSafe(r)
    ensures SameButSyncs(Step(b, r, SyncSignalReq, now), r)
  {
  }

  lemma {:induction false} NextItem(c: Setup, s: Sys, k: nat)
    requires Conserved(c, s) && s.down != [] && s.down[0].ItemMsg? && k == |ItemsOf(s.taken)|
    ensures k < |c.package| && c.package[k] == s.down[0].item
  {
    var rest := ItemsOf(s.down[1..]);
    assert ItemsOf(s.down) == [s.down[0].item] + rest;
    assert c.package == ItemsOf(s.taken) + ([s.down[0].item] + rest) + Left(c, s);
  }

  /** A sync request is read after at least two items and before the last one. */
  lemma {:induction false} SyncComesLate(c: Setup, s: Sys, k: nat)
    requires Conserved(c, s) && Counted(c, s) && c.period >= 2 && |c.package| >= 3
    requires s.down != [] && s.down[0] == SyncSignalReq && k == |ItemsOf(s.taken)|
    ensures 2 <= k < |c.package|
  {
    assert |s.down| == 1 && Left(c, s) != [];
    ItemsOfOne(s.down[0]);
    assert s.down == [s.down[0]];
    assert k == |c.package| - |Left(c, s)|;
    MulMonotone(1, s.batches, c.period);
  }
}
