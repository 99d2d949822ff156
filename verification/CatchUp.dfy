/** A snapshot of any age, brought up to date by the publications cached meanwhile. */
module CatchUp {
  import opened Types
  import opened Publication
  import opened ProductSpec
  import opened RegionSpec
  import opened RegionHistory
  import opened SubCacher

  /** The queue holds, as received, the publications `i .. j` of the run, none lost. */
  ghost predicate Holds(q: seq<Update>, es: seq<Entry>, i: nat, j: nat) {
    && i <= j <= |es| && |q| == j - i
    && (forall m :: 0 <= m < |q| ==> q[m].Wire() == es[i + m].pub)
  }

  /** The product agrees with a region of version `v` and content `c`. */
  predicate Agrees(p: ProductState, info: RegionMsg, v: uint32, c: Content) {
    p.region.Wire() == info.(version := v) && p.Content() == c
  }

  lemma {:induction false} EntryLabel(es: seq<Entry>, info: RegionMsg, i: nat, u: Update)
    requires Chained(es, info) && i < |es| && u.Wire() == es[i].pub
    ensures u.Version() == es[i].version
    ensures u.UpdateRegion? ==> u.region.Wire() == info.(version := es[i].version)
  {
    if i > 0 {
      assert Follows(es[i - 1], es[i], info);
    }
  }

  /** One mutation replayed on a product that agrees with the region before it. */
  lemma {:induction false} ReplayStep(p: ProductState, es: seq<Entry>, info: RegionMsg, i: nat, u: Update)
    requires Chained(es, info) && 0 < i < |es| && u.Wire() == es[i].pub
    requires Agrees(p, info, es[i - 1].version, es[i - 1].after)
    requires u.Version() == Plus(es[i - 1].version, 1)
    ensures Agrees(Observe(p, info.id, u), info, es[i].version, es[i].after)
  {
    hide Apply, Observe, ProductState.Content;
    EntryLabel(es, info, i, u);
    assert Follows(es[i - 1], es[i], info);
    ObserveContent(p, info.id, u);
  }

  /** The first cached update of version `v` repeats or completes the content of version `v`, so the
      snapshot already contains it; each update behind it is the next mutation. */
  lemma {:induction false} ReplayRun(p: ProductState, q: seq<Update>, es: seq<Entry>, info: RegionMsg, i: nat, j: nat,
                                     m: nat, x: nat)
    requires Chained(es, info) && Holds(q, es, i, j)
    requires m + x < |q|
    requires Agrees(p, info, es[i + m].version, es[i + m].after)
    requires forall y :: m <= y <= m + x ==> q[y].Version() == Plus(es[i + m].version, y - m)
    ensures es[i + m + x].version == es[i + m].version + x
    ensures Agrees(ObserveAll(p, info.id, q[m + 1..m + 1 + x]), info, es[i + m + x].version, es[i + m + x].after)
    decreases x
  {
    hide Agrees, Apply, Observe;
    if x > 0 {
      ReplayRun(p, q, es, info, i, j, m, x - 1);
      var init := ObserveAll(p, info.id, q[m + 1..m + x]);
      assert q[m + 1..m + 1 + x][..x - 1] == q[m + 1..m + x];
      var n := i + m + x;
      EntryLabel(es, info, n, q[m + x]);
      assert Follows(es[n - 1], es[n], info);
      assert q[m + x].Version() == Plus(es[n - 1].version, 1);
      ReplayStep(init, es, info, n, q[m + x]);
    } else {
      assert q[m + 1..m + 1] == [];
    }
  }

  /** Convergence: whatever contiguous part of the publications the cacher holds, and however old or
      new the snapshot, a successful replay leaves the region as it was after the last cached
      publication, although heartbeats and republications share version numbers with mutations. */
  lemma {:induction false} Converges(r: Run, q: seq<Update>, i: nat, j: nat, k: nat, p: ProductState)
    requires Consistent(r) && Holds(q, r.entries, i, j) && k < |r.states|
    requires p.region.Wire() == r.states[k].region.Wire() && p.Content() == r.states[k].Content()
    requires Replay(q, p.region.version).result == 0
    ensures i < j
    ensures var info := r.states[0].region.Wire();
            var last := r.entries[j - 1];
            Agrees(ObserveAll(p, info.id, Replay(q, p.region.version).tail), info, last.version, last.after)
  {
    hide RegionState.Valid, RegionState.Content, ProductState.Content, Chained, Replay, ObserveAll, Described,
      Describes;
    var info, v, es := r.states[0].region.Wire(), p.region.version, r.entries;
    ReplaySucceedsIff(q, v);
    var m: nat :| Continues(q, v, m);
    SnapshotAgrees(r, q, i, j, k, m, v);
    ReplayRun(p, q, es, info, i, j, m, |q| - 1 - m);
    assert q[m + 1..m + 1 + (|q| - 1 - m)] == q[m + 1..];
  }

  lemma {:induction false} SnapshotAgrees(r: Run, q: seq<Update>, i: nat, j: nat, k: nat, m: nat, v: uint32)
    requires Consistent(r) && Holds(q, r.entries, i, j) && k < |r.states|
    requires m < |q| && q[m].Version() == v && r.states[k].region.version == v
    ensures r.entries[i + m].version == v && r.entries[i + m].after == r.states[k].Content()
  {
    hide RegionState.Valid, RegionState.Content, Chained;
    var info := r.states[0].region.Wire();
    EntryLabel(r.entries, info, i + m, q[m]);
    assert Described(r, k);
    var d: nat :| Describes(r, d, k);
    if d <= i + m {
      SameVersionSameContent(r.entries, info, d, i + m);
    } else {
      SameVersionSameContent(r.entries, info, i + m, d);
    }
  }

  /** Publication `k` raised the version. */
  predicate Rises(es: seq<Entry>, k: nat) {
    0 < k < |es| && es[k].version == es[k - 1].version + 1
  }

  /** The update at `m` is the first of version `v`, and only mutations are cached behind it. */
  ghost predicate OnlyMutationsBehind(q: seq<Update>, es: seq<Entry>, i: nat, v: uint32, m: nat) {
    && m < |q|
    && (forall x :: 0 <= x < m ==> q[x].Version() != v) && q[m].Version() == v
    && (forall k :: i + m < k < i + |q| ==> Rises(es, k))
  }

  lemma {:induction false} VersionsRise(q: seq<Update>, es: seq<Entry>, info: RegionMsg, i: nat, v: uint32, m: nat,
                                        x: nat)
    requires Chained(es, info) && Holds(q, es, i, i + |q|) && OnlyMutationsBehind(q, es, i, v, m) && m <= x < |q|
    ensures q[x].Version() == es[i + x].version && es[i + x].version == v + (x - m)
    decreases x
  {
    hide Chained;
    EntryLabel(es, info, i + x, q[x]);
    if x > m {
      VersionsRise(q, es, info, i, v, m, x - 1);
      assert Rises(es, i + x);
    }
  }

  lemma {:induction false} ContinuesRises(q: seq<Update>, es: seq<Entry>, info: RegionMsg, i: nat, v: uint32, m: nat)
    requires Chained(es, info) && Holds(q, es, i, i + |q|) && Continues(q, v, m)
    ensures OnlyMutationsBehind(q, es, i, v, m)
  {
    hide Echo, Apply;
    assert q[m].Version() == Plus(v, 0);
    forall k | i + m < k < i + |q|
      ensures Rises(es, k)
    {
      EntryLabel(es, info, k, q[k - i]);
      EntryLabel(es, info, k - 1, q[k - 1 - i]);
      assert Follows(es[k - 1], es[k], info);
      assert q[k - i].Version() == Plus(v, k - i - m) && q[k - 1 - i].Version() == Plus(v, k - 1 - i - m);
    }
  }

  /** What makes a catch-up fail: of the publications in the queue one must carry the snapshot's
      version, and behind the first of those nothing but mutations may have been cached; a single
      heartbeat or republication there is taken for a gap. */
  lemma {:induction false} CatchUpSucceedsIff(q: seq<Update>, es: seq<Entry>, info: RegionMsg, i: nat, v: uint32)
    requires Chained(es, info) && Holds(q, es, i, i + |q|)
    ensures Replay(q, v).result == 0 <==> exists m: nat :: OnlyMutationsBehind(q, es, i, v, m)
  {
    hide Replay, Chained, Holds, OnlyMutationsBehind, Continues;
    ReplaySucceedsIff(q, v);
    if m: nat :| OnlyMutationsBehind(q, es, i, v, m) {
      RisesContinue(q, es, info, i, v, m);
    }
    if m: nat :| Continues(q, v, m) {
      ContinuesRises(q, es, info, i, v, m);
    }
  }

  lemma {:induction false} RisesContinue(q: seq<Update>, es: seq<Entry>, info: RegionMsg, i: nat, v: uint32, m: nat)
    requires Chained(es, info) && Holds(q, es, i, i + |q|) && OnlyMutationsBehind(q, es, i, v, m)
    ensures Continues(q, v, m)
  {
    hide Chained;
    forall x | m <= x < |q|
      ensures q[x].Version() == Plus(v, x - m)
    {
      VersionsRise(q, es, info, i, v, m, x);
    }
  }

  /** Without a lossless channel this fails: the first mutation of a region is lost, the heartbeat
      after it carries the same version, and the replay takes it for the mutation. */
  lemma {:induction false} LostMutationGoesUnnoticed(region: Region, s: Service)
    requires region.version == 0 && s.Good()
    ensures var before := RegionState(region, [], [], true, true, []);
            var after := Step(before, Event.AddService(s));
            var beat := Step(after, PubRegionTimer);
            var p := ProductState(region, [], []);
            var q := [UpdateRegion(region), UpdateRegion(after.region)];
            && beat.published == [PubService(1, s.Wire()), q[1].Wire()]
            && Replay(q, 0) == Replayed(0, [q[1]])
            && ObserveAll(p, region.id, [q[1]]).region.version == beat.region.version
            && ObserveAll(p, region.id, [q[1]]).Content() != beat.Content()
  {
    var after := Step(RegionState(region, [], [], true, true, []), Event.AddService(s));
    var q := [UpdateRegion(region), UpdateRegion(after.region)];
    assert Continues(q, 0, 0);
    ReplaySucceedsIff(q, 0);
    ContentAdd([], [], s, Payload("", 0));
    assert [] + [s] == [s];
    assert [q[1]][..0] == [];
    assert s.name in after.Content().services;
  }
}
