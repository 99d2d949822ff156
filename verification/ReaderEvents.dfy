/** The grammar of success over events: a clock reading for each message, and timeouts between them. */
module ReaderEvents {
  import opened Package
  import opened ProductSpec
  import opened ReaderSpec
  import opened ReaderGrammar

  function MessagesOf(es: seq<Event>): seq<Msg> {
    if es == [] then [] else (if es[0].Recv? then [es[0].msg] else []) + MessagesOf(es[1..])
  }

  ghost predicate AllReceived(es: seq<Event>) {
    forall e :: e in es ==> e.Recv?
  }

  /** The region that is open after a message. */
  function OpenAfter(id: string, m: Msg): string {
    match m
    case ItemMsg(RegionBegin(region)) => region.id
    case ItemMsg(RegionEnd(_, _)) => ""
    case _ => id
  }

  /** The record that a message carries inside region `id`, or the region that it begins, with a stamp. */
  function CallOf(id: string, m: Msg, now: nat): seq<BuilderCall> {
    match m
    case ItemMsg(RegionBegin(region)) => [CallRegion(region.Stamp(now))]
    case _ => if id == "" then [] else HeadCalls(id, m, now)
  }

  /** All records in order, each stamped when it was read. */
  function StampedCalls(id: string, es: seq<Event>): seq<BuilderCall>
    decreases |es|
  {
    if es == [] then []
    else if es[0].Timeout? then StampedCalls(id, es[1..])
    else CallOf(id, es[0].msg, es[0].now) + StampedCalls(OpenAfter(id, es[0].msg), es[1..])
  }

  ghost predicate ClocksRun(es: seq<Event>) {
    forall e :: e in es && e.Recv? ==> e.now > 0
  }

  /** A builder that is offered the records without their stamps and looks each one up. */
  function LookUp(b: Builder, calls: seq<BuilderCall>, stamped: seq<BuilderCall>): Builder {
    (cs: seq<BuilderCall>, c: BuilderCall) =>
      |cs| < |stamped| && b(calls + stamped[..|cs|], stamped[|cs|])
  }

  // From the front, as `Read` goes

  function ReactFront(b: Builder, r: Reader, es: seq<Event>): Reader
    decreases |es|
  {
    if es == [] then r else ReactFront(b, React(b, r, es[0]), es[1..])
  }

  lemma {:induction false} ReactAllIsFront(b: Builder, r: Reader, es: seq<Event>)
    ensures ReactAll(b, r, es) == ReactFront(b, r, es)
    decreases |es|
  {
    hide React;
    if es != [] {
      var init, e := es[..|es| - 1], es[|es| - 1];
      ReactAllIsFront(b, r, init);
      FrontAppend(b, r, init, [e]);
      assert es == init + [e] && [e][1..] == [];
    }
  }

  lemma {:induction false} FrontAppend(b: Builder, r: Reader, es: seq<Event>, fs: seq<Event>)
    ensures ReactFront(b, r, es + fs) == ReactFront(b, ReactFront(b, r, es), fs)
    decreases |es|
  {
    hide React;
    if es == [] {
      assert es + fs == fs;
    } else {
      assert (es + fs)[1..] == es[1..] + fs;
      FrontAppend(b, React(b, r, es[0]), es[1..], fs);
    }
  }

  // Reading with own stamps and reading with one stamp

  /** The first reader has taken, stamped, what the second has taken. */
  ghost predicate Taken(calls: seq<BuilderCall>, stamped: seq<BuilderCall>, r: Reader, q: Reader) {
    |q.calls| <= |stamped| && r.calls == calls + stamped[..|q.calls|]
  }

  /** The two readers are in the same state, and where no region is open none is remembered. */
  ghost predicate Same(r: Reader, q: Reader) {
    q == r.(calls := q.calls) && (r.phase != InBody ==> r.lastRegion == "")
  }

  lemma {:induction false} NextCall(calls: seq<BuilderCall>, stamped: seq<BuilderCall>, j: nat, id: string, e: Event,
                                    rest: seq<Event>)
    requires j <= |stamped| && e.Recv? && StampedCalls(id, [e] + rest) <= stamped[j..]
    ensures var cs := CallOf(id, e.msg, e.now);
            && j + |cs| <= |stamped| && StampedCalls(OpenAfter(id, e.msg), rest) <= stamped[j + |cs|..]
            && (cs != [] ==> cs == [stamped[j]] && calls + stamped[..j + 1] == calls + stamped[..j] + [stamped[j]])
  {
    var cs := CallOf(id, e.msg, e.now);
    assert ([e] + rest)[1..] == rest;
    assert cs + StampedCalls(OpenAfter(id, e.msg), rest) <= stamped[j..];
    assert cs != [] ==> stamped[j..][0] == cs[0];
    assert stamped[j..][|cs|..] == stamped[j + |cs|..];
  }

  /** One message read with its own stamp and with a fixed one. */
  lemma {:induction false} SameStep(b: Builder, calls: seq<BuilderCall>, stamped: seq<BuilderCall>, r: Reader,
                                    q: Reader, e: Event, rest: seq<Event>)
    requires Same(r, q) && Taken(calls, stamped, r, q) && r.Active()
    requires e.Recv? && e.now > 0 && StampedCalls(r.lastRegion, [e] + rest) <= stamped[|q.calls|..]
    ensures var s, t := React(b, r, e), Step(LookUp(b, calls, stamped), q, e.msg, 1);
            && Same(s, t) && Taken(calls, stamped, s, t)
            && (s.Active() ==> StampedCalls(s.lastRegion, rest) <= stamped[|t.calls|..])
  {
    hide StampedCalls;
    NextCall(calls, stamped, |q.calls|, r.lastRegion, e, rest);
  }

  /** Whatever the clock readings, the two readers go through the same states. */
  lemma {:induction false} SameRun(b: Builder, calls: seq<BuilderCall>, stamped: seq<BuilderCall>, r: Reader, q: Reader,
                                   es: seq<Event>)
    requires Same(r, q) && Taken(calls, stamped, r, q) && AllReceived(es) && ClocksRun(es)
    requires r.Active() ==> StampedCalls(r.lastRegion, es) <= stamped[|q.calls|..]
    ensures var s, t := ReactFront(b, r, es), Read(LookUp(b, calls, stamped), q, MessagesOf(es), 1);
            Same(s, t) && Taken(calls, stamped, s, t)
    decreases |es|
  {
    hide React, Step, StampedCalls, Same, Taken, LookUp, Reader.Active;
    if es != [] {
      var e, rest := es[0], es[1..];
      assert es == [e] + rest;
      assert MessagesOf(es)[1..] == MessagesOf(rest);
      if r.Active() {
        SameStep(b, calls, stamped, r, q, e, rest);
        SameRun(b, calls, stamped, React(b, r, e), Step(LookUp(b, calls, stamped), q, e.msg, 1), rest);
      } else {
        SameActive(r, q);
        InactiveStays(LookUp(b, calls, stamped), q, MessagesOf(es), 1);
        StoppedFront(b, r, es);
      }
    }
  }

  lemma {:induction false} SameActive(r: Reader, q: Reader)
    requires Same(r, q)
    ensures r.Active() == q.Active() && r.completed == q.completed
  {
  }

  lemma {:induction false} StoppedFront(b: Builder, r: Reader, es: seq<Event>)
    requires !r.Active()
    ensures ReactFront(b, r, es) == r
    decreases |es|
  {
    if es != [] {
      StoppedFront(b, r, es[1..]);
    }
  }

  // The records of a message sequence

  function OpenAll(id: string, ms: seq<Msg>): string
    decreases |ms|
  {
    if ms == [] then id else OpenAll(OpenAfter(id, ms[0]), ms[1..])
  }

  function CallsOf(id: string, ms: seq<Msg>, now: nat): seq<BuilderCall>
    decreases |ms|
  {
    if ms == [] then [] else CallOf(id, ms[0], now) + CallsOf(OpenAfter(id, ms[0]), ms[1..], now)
  }

  lemma {:induction false} CallsOfAppend(id: string, ms: seq<Msg>, ns: seq<Msg>, now: nat)
    ensures CallsOf(id, ms + ns, now) == CallsOf(id, ms, now) + CallsOf(OpenAll(id, ms), ns, now)
    ensures OpenAll(id, ms + ns) == OpenAll(OpenAll(id, ms), ns)
    decreases |ms|
  {
    hide CallOf, OpenAfter;
    if ms == [] {
      assert ms + ns == ns;
    } else {
      assert (ms + ns)[1..] == ms[1..] + ns;
      CallsOfAppend(OpenAfter(id, ms[0]), ms[1..], ns, now);
    }
  }

  lemma {:induction false} BodyCallsOf(id: string, body: seq<Msg>, now: nat)
    requires id != "" && forall m :: m in body ==> InRegion(m, now)
    ensures CallsOf(id, body, now) == BodyCalls(id, body, now) && OpenAll(id, body) == id
  {
    if body != [] {
      assert InRegion(body[0], now);
      BodyCallsOf(id, body[1..], now);
    }
  }

  lemma {:induction false} GapCallsOf(gap: seq<Msg>, now: nat)
    requires forall m :: m in gap ==> Skipped(m)
    ensures CallsOf("", gap, now) == [] && OpenAll("", gap) == ""
  {
    if gap != [] {
      assert Skipped(gap[0]);
      GapCallsOf(gap[1..], now);
    }
  }

  lemma {:induction false} BlockCallsOf(k: Block, now: nat)
    requires Closed(k, now)
    ensures CallsOf("", BlockMsgs(k), now) == BlockCalls(k, now) && OpenAll("", BlockMsgs(k)) == ""
  {
    hide CallsOf, OpenAll, BodyCalls;
    var m, e := ItemMsg(RegionBegin(k.begin)), ItemMsg(RegionEnd(k.begin.id, k.version));
    OneCallOf("", m, now);
    OneCallOf(k.begin.id, e, now);
    CallsOfAppend("", [m], k.body + ([e] + k.gap), now);
    CallsOfAppend(k.begin.id, k.body, [e] + k.gap, now);
    CallsOfAppend(k.begin.id, [e], k.gap, now);
    BodyCallsOf(k.begin.id, k.body, now);
    GapCallsOf(k.gap, now);
  }

  lemma {:induction false} OneCallOf(id: string, m: Msg, now: nat)
    ensures CallsOf(id, [m], now) == CallOf(id, m, now) && OpenAll(id, [m]) == OpenAfter(id, m)
  {
    assert [m][1..] == [];
    assert CallOf(id, m, now) + [] == CallOf(id, m, now);
  }

  lemma {:induction false} BlocksCallsOf(ks: seq<Block>, now: nat)
    requires forall i :: 0 <= i < |ks| ==> Closed(ks[i], now)
    ensures CallsOf("", BlocksMsgs(ks), now) == BlocksCalls(ks, now) && OpenAll("", BlocksMsgs(ks)) == ""
  {
    hide Closed, BlockMsgs, BlockCalls, OpenAfter, CallOf;
    if ks != [] {
      BlockCallsOf(ks[0], now);
      BlocksCallsOf(ks[1..], now);
      CallsOfAppend("", BlockMsgs(ks[0]), BlocksMsgs(ks[1..]), now);
    }
  }

  /** The records of a well-formed message sequence are those of its regions. */
  lemma {:induction false} MessagesCallsOf(ks: seq<Block>, now: nat)
    requires Proper(ks, now)
    ensures CallsOf("", Messages(ks), now) == BlocksCalls(ks, now)
  {
    hide Closed, BlocksMsgs, BlocksCalls, CallsOf, OpenAll;
    var e := ItemMsg(SnapshotEnd);
    BlocksCallsOf(ks, now);
    OneCallOf("", e, now);
    OneCallOf("", SnapshotRep(0), now);
    OneCallOf("", ItemMsg(SnapshotBegin), now);
    assert PREAMBLE == [SnapshotRep(0)] + [ItemMsg(SnapshotBegin)];
    CallsOfAppend("", [SnapshotRep(0)], [ItemMsg(SnapshotBegin)], now);
    CallsOfAppend("", PREAMBLE, BlocksMsgs(ks) + [e], now);
    CallsOfAppend("", BlocksMsgs(ks), [e], now);
  }

  lemma {:induction false} StampsDoNotCount(id: string, es: seq<Event>, now: nat)
    ensures |StampedCalls(id, es)| == |CallsOf(id, MessagesOf(es), now)|
    decreases |es|
  {
    if es != [] {
      if es[0].Timeout? {
        assert MessagesOf(es) == MessagesOf(es[1..]);
        StampsDoNotCount(id, es[1..], now);
      } else {
        assert MessagesOf(es)[1..] == MessagesOf(es[1..]);
        StampsDoNotCount(OpenAfter(id, es[0].msg), es[1..], now);
      }
    }
  }

  lemma {:induction false} LookUpTakes(b: Builder, calls: seq<BuilderCall>, stamped: seq<BuilderCall>,
                                       cs: seq<BuilderCall>, ds: seq<BuilderCall>)
    requires |cs| + |ds| == |stamped|
    ensures Takes(LookUp(b, calls, stamped), cs, ds) <==> Takes(b, calls + stamped[..|cs|], stamped[|cs|..])
    decreases |ds|
  {
    if ds != [] {
      var k := |cs|;
      LookUpTakes(b, calls, stamped, cs + [ds[0]], ds[1..]);
      assert calls + stamped[..k] + [stamped[k]] == calls + stamped[..k + 1];
      assert stamped[k..][1..] == stamped[k + 1..];
    }
  }

  // The theorem

  /** The first `n` events are messages, and they are the regions `ks`, properly framed and closed;
      the builder takes the records, each stamped when it was read. */
  ghost predicate WellFormed(b: Builder, calls: seq<BuilderCall>, es: seq<Event>, n: nat, ks: seq<Block>) {
    && n <= |es| && AllReceived(es[..n])
    && MessagesOf(es[..n]) == Messages(ks) && Proper(ks, 1)
    && Takes(b, calls, StampedCalls("", es[..n]))
  }

  lemma {:induction false} StampedAppend(id: string, es: seq<Event>, e: Event)
    ensures StampedCalls(id, es) <= StampedCalls(id, es + [e])
    ensures MessagesOf(es + [e]) == MessagesOf(es) + if e.Recv? then [e.msg] else []
    decreases |es|
  {
    if es != [] {
      assert (es + [e])[1..] == es[1..] + [e];
      StampedAppend(if es[0].Recv? then OpenAfter(id, es[0].msg) else id, es[1..], e);
    } else {
      assert es + [e] == [e];
    }
  }

  /** Success, said with what was read before the last message. */
  lemma {:induction false} SucceedsEnds(b: Builder, r: Reader, ms: seq<Msg>, now: nat)
    requires ms != [] && r.completed == []
    ensures Succeeds(b, r, ms, now) <==>
            Read(b, r, ms[..|ms| - 1], now).Active() && Read(b, r, ms, now).completed == [0]
    decreases |ms|
  {
    hide Step;
    var s, init := Step(b, r, ms[0], now), ms[..|ms| - 1];
    assert [] + [0] == [0];
    StepStops(b, r, ms[0], now);
    if !r.Active() {
      InactiveStays(b, r, init, now);
    } else if |ms| > 1 {
      assert init[1..] == ms[1..][..|ms| - 2];
      if s.completed == [] {
        SucceedsEnds(b, s, ms[1..], now);
      } else {
        InactiveStays(b, s, init[1..], now);
      }
    } else {
      assert Read(b, r, ms, now) == Read(b, s, [], now);
    }
  }

  lemma {:induction false} StepStops(b: Builder, r: Reader, m: Msg, now: nat)
    ensures var s := Step(b, r, m, now); s.completed != r.completed ==> !s.Active()
  {
  }

  /** On messages alone: the client reports success with the last of them exactly if they are
      well-formed, and then the builder has their records. */
  lemma {:induction false} LastReportsIff(b: Builder, calls: seq<BuilderCall>, es: seq<Event>)
    requires es != [] && AllReceived(es) && ClocksRun(es)
    ensures var r := ReactAll(b, StartedReader(calls), es);
            && (ReactAll(b, StartedReader(calls), es[..|es| - 1]).Active() && r.completed == [0] <==>
                exists ks :: WellFormed(b, calls, es, |es|, ks))
            && ((exists ks :: WellFormed(b, calls, es, |es|, ks)) ==> r.calls == calls + StampedCalls("", es))
  {
    hide Takes, Proper, Messages, Read, StampedCalls, ReactAll, ReactFront, Succeeds, MessagesOf, LookUp, CallsOf,
      BlocksCalls, Reader.Active;
    var r0, q0, stamped := StartedReader(calls), StartedReader([]), StampedCalls("", es);
    var init, e := es[..|es| - 1], es[|es| - 1];
    var b1, ms := LookUp(b, calls, stamped), MessagesOf(es);
    assert es == init + [e] && es[..|es|] == es;
    assert calls + stamped[..0] == calls && stamped[0..] == stamped;
    StampedAppend("", init, e);
    assert ms[..|ms| - 1] == MessagesOf(init);
    ReactAllIsFront(b, r0, es);
    ReactAllIsFront(b, r0, init);
    SameRun(b, calls, stamped, r0, q0, es);
    SameRun(b, calls, stamped, r0, q0, init);
    SameActive(ReactFront(b, r0, init), Read(b1, q0, MessagesOf(init), 1));
    SucceedsEnds(b1, q0, ms, 1);
    SucceedsIff(b1, [], ms, 1);
    StampsDoNotCount("", es, 1);
    forall ks | Proper(ks, 1) && ms == Messages(ks)
      ensures |BlocksCalls(ks, 1)| == |stamped|
      ensures Takes(b1, [], BlocksCalls(ks, 1)) <==> Takes(b, calls, stamped)
      ensures Takes(b, calls, stamped) <==> WellFormed(b, calls, es, |es|, ks)
    {
      MessagesCallsOf(ks, 1);
      LookUpTakes(b, calls, stamped, [], BlocksCalls(ks, 1));
    }
    if ks :| WellFormed(b, calls, es, |es|, ks) {
      assert [] + BlocksCalls(ks, 1) == BlocksCalls(ks, 1);
      assert stamped[..|stamped|] == stamped;
    }
  }

  /** A report of success goes back to an event before which there was no timeout. */
  lemma {:induction false} FirstReport(b: Builder, calls: seq<BuilderCall>, es: seq<Event>) returns (n: nat)
    requires ReactAll(b, StartedReader(calls), es).completed == [0]
    ensures 0 < n <= |es| && AllReceived(es[..n])
    ensures ReactAll(b, StartedReader(calls), es[..n - 1]).Active()
    ensures ReactAll(b, StartedReader(calls), es[..n]) == ReactAll(b, StartedReader(calls), es)
  {
    hide Step;
    var r0 := StartedReader(calls);
    assert es != [];
    var init, e := es[..|es| - 1], es[|es| - 1];
    var r := ReactAll(b, r0, init);
    StoppedStep(b, r, e);
    if r.Active() {
      n := |es|;
      assert es[..n] == es && es == init + [e];
      CompletesAtMostOnce(b, calls, init, []);
      assert ([] + [-1])[0] == -1;
      ActiveReceived(b, calls, init);
    } else {
      n := FirstReport(b, calls, init);
      assert init[..n] == es[..n] && init[..n - 1] == es[..n - 1];
    }
  }

  lemma {:induction false} StoppedStep(b: Builder, r: Reader, e: Event)
    ensures !r.Active() ==> React(b, r, e) == r
  {
  }

  lemma {:induction false} ActiveReceived(b: Builder, calls: seq<BuilderCall>, es: seq<Event>)
    requires ReactAll(b, StartedReader(calls), es).Active()
    ensures AllReceived(es)
  {
    hide Step;
    if es != [] {
      var init, e := es[..|es| - 1], es[|es| - 1];
      StoppedStep(b, ReactAll(b, StartedReader(calls), init), e);
      ActiveReceived(b, calls, init);
      assert es == init + [e];
    }
  }

  /** What follows a report changes nothing. */
  lemma {:induction false} ReportStays(b: Builder, calls: seq<BuilderCall>, es: seq<Event>, n: nat)
    requires n <= |es| && ReactAll(b, StartedReader(calls), es[..n]).completed != []
    ensures ReactAll(b, StartedReader(calls), es) == ReactAll(b, StartedReader(calls), es[..n])
  {
    hide Step;
    if n < |es| {
      var init := es[..|es| - 1];
      assert init[..n] == es[..n];
      ReportStays(b, calls, init, n);
      CompletesAtMostOnce(b, calls, init, []);
      StoppedStep(b, ReactAll(b, StartedReader(calls), init), es[|es| - 1]);
    } else {
      assert es[..n] == es;
    }
  }

  /** A client reports success exactly if, before any timeout, the messages it reads come to be
      well-formed, whatever its clock says at each of them; the builder then has exactly their records
      in order, each stamped when it was read. */
  lemma {:induction false} ReportsSuccessIff(b: Builder, calls: seq<BuilderCall>, es: seq<Event>)
    requires ClocksRun(es)
    ensures var r := ReactAll(b, StartedReader(calls), es);
            && (r.completed == [0] <==> exists n: nat, ks :: WellFormed(b, calls, es, n, ks))
            && (forall n: nat, ks :: WellFormed(b, calls, es, n, ks) ==> r.calls == calls + StampedCalls("", es[..n]))
  {
    hide ReactAll, Takes, Proper, BlocksMsgs, Reader.Active, MessagesOf;
    if ReactAll(b, StartedReader(calls), es).completed == [0] {
      var n := FirstReport(b, calls, es);
      assert es[..n][..|es[..n]| - 1] == es[..n - 1];
      LastReportsIff(b, calls, es[..n]);
      var ks :| WellFormed(b, calls, es[..n], n, ks);
      assert es[..n][..n] == es[..n];
      assert WellFormed(b, calls, es, n, ks);
    }
    forall n: nat, ks | WellFormed(b, calls, es, n, ks)
      ensures ReactAll(b, StartedReader(calls), es).completed == [0]
      ensures ReactAll(b, StartedReader(calls), es).calls == calls + StampedCalls("", es[..n])
    {
      NotEmpty(es[..n], ks);
      assert es[..n][..n] == es[..n];
      assert WellFormed(b, calls, es[..n], n, ks);
      LastReportsIff(b, calls, es[..n]);
      ReportStays(b, calls, es, n);
    }
  }

  lemma {:induction false} NotEmpty(es: seq<Event>, ks: seq<Block>)
    requires MessagesOf(es) == Messages(ks)
    ensures es != []
  {
  }
}
