/** Runs of a region: what it publishes, and what its version says about its content. */
module RegionHistory {
  import opened Types
  import opened Lists
  import opened Publication
  import opened Sweep
  import opened RegionSpec

  /** A publication with the version and content of the region when it was sent. */
  datatype Entry = Entry(pub: Pub, version: uint32, after: Content)

  predicate IsMutation(p: Pub) {
    p.PubService? || p.PubRmService? || p.PubPayload? || p.PubRmPayload?
  }

  /** A heartbeat or republication repeats what the region holds, under its current version. */
  predicate Echo(p: Pub, info: RegionMsg, v: uint32, c: Content) {
    match p
    case PubRegion(r) => r == info.(version := v)
    case PubRmRegion => true
    case PubService(ver, s) => ver == v && s.name in c.services && c.services[s.name] == s.endpoint
    case PubPayload(ver, i) => ver == v && i in c.payloads
    case _ => false
  }

  predicate Follows(prev: Entry, e: Entry, info: RegionMsg) {
    if e.version == prev.version then e.after == prev.after && Echo(e.pub, info, e.version, e.after)
    else
      && e.version == prev.version + 1
      && IsMutation(e.pub) && e.pub.version == e.version
      && e.after == Apply(prev.after, e.pub)
  }

  ghost predicate Chained(es: seq<Entry>, info: RegionMsg) {
    && (es != [] ==> Echo(es[0].pub, info, es[0].version, es[0].after))
    && (forall i :: 0 < i < |es| ==> Follows(es[i - 1], es[i], info))
  }

  /** The effect of a step on version, content and publications. */
  lemma {:induction false} StepEffect(s: RegionState, e: Event)
    requires s.Valid() && s.observed && Enabled(s, e) && KeepsObserver(s, e)
    requires e.PubRepeatedTimer? ==> e.now > 0
    ensures var t := Step(s, e);
            && t.Valid() && t.observed
            && t.region == s.region.(version := t.region.version)
            && (if Mutates(s, e) then
                  && t.region.version == Next(s.region.version)
                  && |Emitted(s, e)| == 1
                  && IsMutation(Emitted(s, e)[0]) && Emitted(s, e)[0].version == t.region.version
                  && t.Content() == Apply(s.Content(), Emitted(s, e)[0])
                else
                  && t.region.version == s.region.version
                  && t.Content() == s.Content()
                  && forall p :: p in Emitted(s, e) ==> Echo(p, s.region.Wire(), t.region.version, t.Content()))
  {
    hide DistinctKeys, GoodServices, GoodPayloads, ContentOf;
    match e
    case AddService(svc) => if Mutates(s, e) { AddServiceEffect(s, svc); }
    case RmService(name) => if Mutates(s, e) { RmServiceEffect(s, name); }
    case AddPayload(pl) => if Mutates(s, e) { AddPayloadEffect(s, pl); }
    case RmPayload(id) => if Mutates(s, e) { RmPayloadEffect(s, id); }
    case PubRepeatedTimer(ss, sp, now, now') => RepeatEffect(s, ss, sp, now, now');
    case _ =>
  }

  ghost predicate Possible(s: RegionState, es: seq<Event>)
    decreases |es|
  {
    es == [] || (Enabled(s, es[0]) && Possible(Step(s, es[0]), es[1..]))
  }

  function Final(s: RegionState, es: seq<Event>): RegionState
    requires Possible(s, es)
    decreases |es|
  {
    if es == [] then s else Final(Step(s, es[0]), es[1..])
  }

  function MutationCount(s: RegionState, es: seq<Event>): nat
    requires Possible(s, es)
    decreases |es|
  {
    if es == [] then 0 else (if Mutates(s, es[0]) then 1 else 0) + MutationCount(Step(s, es[0]), es[1..])
  }

  /** The version counts the successful mutations, modulo 2^32, whether or not somebody observes. */
  lemma {:induction false} VersionIsCount(s: RegionState, es: seq<Event>)
    requires Possible(s, es)
    ensures Final(s, es).region.version == (s.region.version + MutationCount(s, es)) % 0x1_0000_0000
    decreases |es|
  {
    hide Step;
    if es != [] {
      StepVersion(s, es[0]);
      VersionIsCount(Step(s, es[0]), es[1..]);
    }
  }

  lemma {:induction false} StepVersion(s: RegionState, e: Event)
    requires Enabled(s, e)
    ensures Step(s, e).region.version == if Mutates(s, e) then Next(s.region.version) else s.region.version
  {
    hide SweepList, HasKey, Without;
  }

  lemma {:induction false} AppendDistinct<V>(s: seq<V>, key: V -> string, v: V)
    requires DistinctKeys(s, key) && !HasKey(s, key, key(v))
    ensures DistinctKeys(s + [v], key)
  {
    WithoutNone(s, key, key(v));
    PutDistinct(s, key, v);
  }

  lemma {:induction false} AddServiceEffect(s: RegionState, svc: Service)
    requires s.Valid() && s.observed && svc.Good() && !HasKey(s.services, ServiceKey, svc.name)
    ensures AddedService(s, svc).Valid()
    ensures AddedService(s, svc).Content() == Apply(s.Content(), PubService(0, svc.Wire()))
  {
    AppendDistinct(s.services, ServiceKey, svc);
    ContentAdd(s.services, s.payloads, svc, Payload("", 0));
  }

  lemma {:induction false} RmServiceEffect(s: RegionState, name: string)
    requires s.Valid() && s.observed && HasKey(s.services, ServiceKey, name)
    ensures RemovedService(s, name).Valid()
    ensures RemovedService(s, name).Content() == Apply(s.Content(), PubRmService(0, name))
  {
    WithoutDistinct(s.services, ServiceKey, name);
    GoodWithout(s.services, [], name);
    ServiceMapWithout(s.services, name);
  }

  lemma {:induction false} AddPayloadEffect(s: RegionState, pl: Payload)
    requires s.Valid() && s.observed && pl.Good() && !HasKey(s.payloads, PayloadKey, pl.id)
    ensures AddedPayload(s, pl).Valid()
    ensures AddedPayload(s, pl).Content() == Apply(s.Content(), PubPayload(0, pl.id))
  {
    AppendDistinct(s.payloads, PayloadKey, pl);
    ContentAdd(s.services, s.payloads, Service("", EndPoint("", ""), 0), pl);
  }

  lemma {:induction false} RmPayloadEffect(s: RegionState, id: string)
    requires s.Valid() && s.observed && HasKey(s.payloads, PayloadKey, id)
    ensures RemovedPayload(s, id).Valid()
    ensures RemovedPayload(s, id).Content() == Apply(s.Content(), PubRmPayload(0, id))
  {
    WithoutDistinct(s.payloads, PayloadKey, id);
    GoodWithout([], s.payloads, id);
    PayloadSetWithout(s.payloads, id);
  }

  lemma {:induction false} RepeatEffect(s: RegionState, ss: nat, sp: nat, now: nat, now': nat)
    requires s.Valid() && s.observed && sp > 0 && now > 0
    ensures var t := Repeated(s, ss, sp, now, now');
            var ps := ServicePubs(s.region.version, SweptServices(s, ss, now).out)
                      + PayloadPubs(s.region.version, SweptPayloads(s, sp, now').out);
            && t.Valid() && t.observed && t.region == s.region
            && t.Content() == s.Content()
            && t.published == s.published + ps
            && forall p :: p in ps ==> Echo(p, s.region.Wire(), s.region.version, s.Content())
  {
    hide SweepList, DistinctKeys, GoodServices, GoodPayloads, ServiceMap;
    SweepServiceContent(s.services, Sub64(now, ss * 1000), now, SERVICE_MAXCOUNT);
    SweepPayloadContent(s.payloads, Sub64(now', sp * 1000), now', PayloadBudget(|s.payloads|, sp));
    var so, po := SweptServices(s, ss, now).out, SweptPayloads(s, sp, now').out;
    forall p | p in ServicePubs(s.region.version, so) + PayloadPubs(s.region.version, po)
      ensures Echo(p, s.region.Wire(), s.region.version, s.Content())
    {
      if i :| 0 <= i < |so| && p == PubService(s.region.version, so[i].Wire()) {
        assert so[i] in so;
      } else {
        var i :| 0 <= i < |po| && p == PubPayload(s.region.version, po[i].id);
        assert po[i] in po;
      }
    }
  }

  /** A run: the states it went through and everything it published. */
  datatype Run = Run(states: seq<RegionState>, entries: seq<Entry>) {
    ghost predicate Started() {
      states != [] && entries != []
    }

    function Now(): RegionState
      requires states != []
    {
      states[|states| - 1]
    }

    function Last(): Entry
      requires entries != []
    {
      entries[|entries| - 1]
    }
  }

  function Entries(ps: seq<Pub>, t: RegionState): (es: seq<Entry>)
    ensures |es| == |ps|
  {
    seq(|ps|, i requires 0 <= i < |ps| => Entry(ps[i], t.region.version, t.Content()))
  }

  /** A run begins when an observer is given to a table; the table may already hold something. */
  function Begin(s: RegionState): Run
    requires !s.active
  {
    var t := Step(s, Start(true));
    Run([t], Entries(Emitted(s, Start(true)), t))
  }

  /** It announces the region as it is. */
  lemma {:induction false} BeginsWith(s: RegionState)
    requires !s.active
    ensures |Begin(s).states| == 1
    ensures var t := Begin(s).states[0]; t == s.(observed := true, active := true, published := t.published)
    ensures Begin(s).entries == [Entry(PubRegion(s.region.Wire()), s.region.version, s.Content())]
  {
    var t := Step(s, Start(true));
    assert t.published == s.published + [PubRegion(s.region.Wire())];
    assert Emitted(s, Start(true)) == [PubRegion(s.region.Wire())];
    assert t.Content() == s.Content();
  }

  function Advance(r: Run, e: Event): Run
    requires r.states != [] && Enabled(r.Now(), e)
  {
    var t := Step(r.Now(), e);
    Run(r.states + [t], r.entries + Entries(Emitted(r.Now(), e), t))
  }

  /** Fewer than 2^32 mutations: the version has not wrapped. */
  predicate NoWrap(r: Run, e: Event)
    requires r.states != []
  {
    Mutates(r.Now(), e) ==> r.Now().region.version < 0xFFFF_FFFF
  }

  /** State `k` is what entry `i` describes. */
  ghost predicate Describes(r: Run, i: nat, k: nat) {
    && i < |r.entries| && k < |r.states|
    && r.entries[i].version == r.states[k].region.version
    && r.entries[i].after == r.states[k].Content()
  }

  ghost predicate Described(r: Run, k: nat) {
    exists i: nat :: Describes(r, i, k)
  }

  ghost predicate Consistent(r: Run) {
    && r.Started()
    && Chained(r.entries, r.states[0].region.Wire())
    && Describes(r, |r.entries| - 1, |r.states| - 1)
    && (forall k :: 0 <= k < |r.states| ==> Described(r, k))
    && (forall k :: 0 <= k < |r.states| ==>
                      && r.states[k].Valid() && r.states[k].observed
                      && r.states[k].region == r.states[0].region.(version := r.states[k].region.version))
  }

  lemma {:induction false} BeginConsistent(s: RegionState)
    requires s.Valid() && !s.active
    ensures Consistent(Begin(s))
  {
    assert Describes(Begin(s), 0, 0);
  }

  /** Every step of a run keeps publications and states consistent. */
  lemma {:induction false} AdvanceConsistent(r: Run, e: Event)
    requires Consistent(r) && Enabled(r.Now(), e) && KeepsObserver(r.Now(), e) && NoWrap(r, e)
    requires e.PubRepeatedTimer? ==> e.now > 0
    ensures Consistent(Advance(r, e))
  {
    hide RegionState.Valid, Step, RegionState.Content, Apply, Echo;
    var s, t := r.Now(), Step(r.Now(), e);
    var a := Advance(r, e);
    StepEffect(s, e);
    var info := r.states[0].region.Wire();
    var n := |r.entries|;
    forall i | 0 < i < |a.entries|
      ensures Follows(a.entries[i - 1], a.entries[i], info)
    {
      if i >= n {
        assert a.entries[i].pub == Emitted(s, e)[i - n];
        assert Emitted(s, e)[i - n] in Emitted(s, e);
        EchoVersionless(a.entries[i].pub, s.region.Wire(), info, t.region.version, t.Content());
      }
    }
    assert Describes(a, |a.entries| - 1, |a.states| - 1);
    forall k | 0 <= k < |a.states|
      ensures Described(a, k)
    {
      if k < |r.states| {
        assert Described(r, k);
        var i: nat :| Describes(r, i, k);
        assert Describes(a, i, k) by {
          assert a.entries[i] == r.entries[i] && a.states[k] == r.states[k];
        }
      }
    }
  }

  lemma {:induction false} EchoVersionless(p: Pub, i1: RegionMsg, i2: RegionMsg, v: uint32, c: Content)
    requires i1.(version := 0) == i2.(version := 0)
    ensures Echo(p, i1, v, c) == Echo(p, i2, v, c)
  {
  }

  /** Versions never go back, and between two publications of one version nothing has changed. */
  lemma {:induction false} SameVersionSameContent(es: seq<Entry>, info: RegionMsg, i: nat, j: nat)
    requires Chained(es, info) && i <= j < |es|
    ensures es[i].version <= es[j].version
    ensures es[i].version == es[j].version ==> es[i].after == es[j].after
    decreases j
  {
    hide Echo, Apply;
    if i < j {
      SameVersionSameContent(es, info, i, j - 1);
      assert Follows(es[j - 1], es[j], info);
    }
  }

  /** The publications that raised the version, in order. */
  function Mutations(es: seq<Entry>): seq<Pub> {
    if |es| <= 1 then []
    else
      Mutations(es[..|es| - 1])
      + if es[|es| - 1].version == es[|es| - 2].version then [] else [es[|es| - 1].pub]
  }

  function Fold(c: Content, ps: seq<Pub>): Content {
    if ps == [] then c else Apply(Fold(c, ps[..|ps| - 1]), ps[|ps| - 1])
  }

  lemma {:induction false} FoldAppend(c: Content, ps: seq<Pub>, p: Pub)
    ensures Fold(c, ps + [p]) == Apply(Fold(c, ps), p)
  {
    assert (ps + [p])[..|ps|] == ps;
  }

  /** The mutations carry one version after another, and folding them gives the content. */
  lemma {:induction false} MutationsFold(es: seq<Entry>, info: RegionMsg)
    requires Chained(es, info) && es != []
    ensures var ms := Mutations(es);
            var last := es[|es| - 1];
            && last.version == es[0].version + |ms|
            && (forall k :: 0 <= k < |ms| ==> IsMutation(ms[k]) && ms[k].version == es[0].version + k + 1)
            && Fold(es[0].after, ms) == last.after
  {
    hide Echo, Apply;
    if |es| > 1 {
      var init := es[..|es| - 1];
      MutationsFold(init, info);
      assert Follows(es[|es| - 2], es[|es| - 1], info);
      assert init[|init| - 1] == es[|es| - 2] && init[0] == es[0];
      if es[|es| - 1].version == es[|es| - 2].version {
        assert Mutations(es) == Mutations(init);
      } else {
        assert Mutations(es) == Mutations(init) + [es[|es| - 1].pub];
        FoldAppend(es[0].after, Mutations(init), es[|es| - 1].pub);
      }
    }
  }

  lemma {:induction false} MutationsPrefix(es: seq<Entry>, n: nat)
    requires n <= |es|
    ensures Mutations(es[..n]) <= Mutations(es)
  {
    if n < |es| {
      var init := es[..|es| - 1];
      MutationsPrefix(init, n);
      assert init[..n] == es[..n];
      var a, b, c := Mutations(es[..n]), Mutations(init), Mutations(es);
      assert |b| <= |c| && b == c[..|b|];
      assert a == b[..|a|];
    } else {
      assert es[..n] == es;
    }
  }

  /** The version of any publication counts the mutations up to it, and folding that many gives
      the content after it. */
  lemma {:induction false} VersionCounts(es: seq<Entry>, info: RegionMsg, i: nat)
    requires Chained(es, info) && i < |es|
    ensures es[0].version <= es[i].version <= es[0].version + |Mutations(es)|
    ensures es[i].after == Fold(es[0].after, Mutations(es)[..es[i].version - es[0].version])
  {
    hide Echo, Apply, Mutations, Fold;
    var prefix := es[..i + 1];
    forall j | 0 < j < |prefix|
      ensures Follows(prefix[j - 1], prefix[j], info)
    {
      assert Follows(es[j - 1], es[j], info);
    }
    MutationsFold(prefix, info);
    MutationsPrefix(es, i + 1);
    assert Mutations(es)[..|Mutations(prefix)|] == Mutations(prefix);
  }

  /** The version of any state of a run counts the mutations before it, and folding that many of
      the published mutations gives the content its snapshot carries. */
  lemma {:induction false} VersionDeterminesContent(r: Run, k: nat)
    requires Consistent(r) && k < |r.states|
    ensures var first, ms, s := r.entries[0], Mutations(r.entries), r.states[k];
            && first.version <= s.region.version <= first.version + |ms|
            && s.Content() == Fold(first.after, ms[..s.region.version - first.version])
    ensures forall m :: 0 <= m < |Mutations(r.entries)| ==>
                          && IsMutation(Mutations(r.entries)[m])
                          && Mutations(r.entries)[m].version == r.entries[0].version + m + 1
  {
    hide Chained, Mutations, Fold, RegionState.Valid, RegionState.Content;
    var info := r.states[0].region.Wire();
    MutationsFold(r.entries, info);
    assert Described(r, k);
    var i: nat :| Describes(r, i, k);
    VersionCounts(r.entries, info, i);
  }
}
