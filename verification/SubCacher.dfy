/** The queue of publications that wait for a snapshot, and their replay on top of it. */
module SubCacher {
  import opened Types
  import opened Publication
  import opened ProductSpec
  import opened RegionProduct

  /** The result of a replay and the updates that the observer got. */
  datatype Replayed = Replayed(result: int, tail: seq<Update>)

  /** Versions count modulo 2^32. */
  function Plus(v: uint32, k: nat): uint32 {
    (v + k) % 0x1_0000_0000
  }

  /** The position of the first update of version `v`, or the length of the queue. */
  function FirstAt(q: seq<Update>, v: uint32): (m: nat)
    ensures m <= |q|
    ensures forall i :: 0 <= i < m ==> q[i].Version() != v
    ensures m < |q| ==> q[m].Version() == v
  {
    if q == [] || q[0].Version() == v then 0 else 1 + FirstAt(q[1..], v)
  }

  /** How many updates from the front carry `expected`, `expected + 1`, ... */
  function Consecutive(q: seq<Update>, expected: uint32): (n: nat)
    ensures n <= |q|
    ensures forall i :: 0 <= i < n ==> q[i].Version() == Plus(expected, i)
    ensures n < |q| ==> q[n].Version() != Plus(expected, n)
  {
    if q == [] || q[0].Version() != expected then 0
    else
      var n := Consecutive(q[1..], Next(expected));
      assert forall i :: 0 < i <= n ==> q[i] == q[1..][i - 1];
      1 + n
  }

  function Replay(q: seq<Update>, v: uint32): Replayed {
    var m := FirstAt(q, v);
    if m == |q| then Replayed(-1, [])
    else
      var rest := q[m + 1..];
      var n := Consecutive(rest, Next(v));
      Replayed(if n == |rest| then 0 else -1, rest[..n])
  }

  /** The queue is: updates of other versions, one of version `v` at `m`, then `v + 1`, `v + 2`, ...
      up to the end. */
  ghost predicate Continues(q: seq<Update>, v: uint32, m: nat): (continues: bool)
    ensures continues ==> m < |q|
  {
    m < |q|
    && (forall i :: 0 <= i < m ==> q[i].Version() != v)
    && (forall i :: m <= i < |q| ==> q[i].Version() == Plus(v, i - m))
  }

  lemma {:induction false} ContinuesReplays(q: seq<Update>, v: uint32, m: nat)
    requires Continues(q, v, m)
    ensures Replay(q, v) == Replayed(0, q[m + 1..])
  {
    hide FirstAt, Consecutive;
    assert q[m].Version() == v;
    assert FirstAt(q, v) == m;
    var rest := q[m + 1..];
    forall i | 0 <= i < |rest|
      ensures rest[i].Version() == Plus(Next(v), i)
    {
      assert rest[i] == q[m + 1 + i];
    }
    assert Consecutive(rest, Next(v)) == |rest|;
  }

  lemma {:induction false} ReplayContinues(q: seq<Update>, v: uint32)
    requires Replay(q, v).result == 0
    ensures Continues(q, v, FirstAt(q, v))
  {
    hide FirstAt, Consecutive;
    var m := FirstAt(q, v);
    var rest := q[m + 1..];
    assert Consecutive(rest, Next(v)) == |rest|;
    forall i | m <= i < |q|
      ensures q[i].Version() == Plus(v, i - m)
    {
      assert i > m ==> q[i] == rest[i - m - 1];
    }
  }

  /** A replay succeeds exactly on such a queue, and then presents everything behind the match. */
  lemma {:induction false} ReplaySucceedsIff(q: seq<Update>, v: uint32)
    ensures Replay(q, v).result == 0 <==> exists m: nat :: Continues(q, v, m)
    ensures forall m: nat :: Continues(q, v, m) ==> Replay(q, v) == Replayed(0, q[m + 1..])
  {
    hide Continues, Replay;
    if Replay(q, v).result == 0 {
      ReplayContinues(q, v);
    }
    forall m: nat | Continues(q, v, m)
      ensures Replay(q, v) == Replayed(0, q[m + 1..])
    {
      ContinuesReplays(q, v, m);
    }
  }

  lemma {:induction false} PlusNext(v: uint32, i: nat)
    ensures Plus(Next(v), i) == Plus(v, i + 1)
  {
  }

  /** Whatever the result, the observer gets the longest consecutive run behind the first match and
      nothing else. */
  lemma {:induction false} ReplayTail(q: seq<Update>, v: uint32)
    ensures FirstAt(q, v) == |q| ==> Replay(q, v) == Replayed(-1, [])
    ensures FirstAt(q, v) < |q| ==>
              var m, t := FirstAt(q, v), Replay(q, v).tail;
              && t <= q[m + 1..]
              && (forall i :: 0 <= i < |t| ==> t[i].Version() == Plus(v, i + 1))
              && (m + 1 + |t| < |q| ==> q[m + 1 + |t|].Version() != Plus(v, |t| + 1))
  {
    hide FirstAt, Consecutive, Plus, Next;
    var m := FirstAt(q, v);
    if m < |q| {
      var rest := q[m + 1..];
      var n := Consecutive(rest, Next(v));
      var t := Replay(q, v).tail;
      assert t == rest[..n];
      forall i | 0 <= i < |t|
        ensures t[i].Version() == Plus(v, i + 1)
      {
        PlusNext(v, i);
      }
      PlusNext(v, n);
      assert n < |rest| ==> rest[n] == q[m + 1 + n];
    }
  }

  lemma {:induction false} PlusZero(v: uint32)
    ensures Plus(v, 0) == v
  {
  }

  lemma {:induction false} PlusOneMore(v: uint32, k: nat)
    ensures Plus(v, k + 1) == Next(Plus(v, k))
  {
  }

  lemma {:induction false} ObserveNone(p: ProductState, id: string, us: seq<Update>)
    ensures ObserveAll(p, id, us[..0]) == p
  {
  }

  lemma {:induction false} ObserveOneMore(p: ProductState, id: string, us: seq<Update>, k: nat)
    requires k < |us|
    ensures ObserveAll(p, id, us[..k + 1]) == Observe(ObserveAll(p, id, us[..k]), id, us[k])
  {
    assert us[..k + 1][..k] == us[..k];
  }

  /** Hands one cached update to the observer (`PubData::present`). */
  method PresentUpdate(update: Update, id: string, observer: RegionProduct)
    requires observer.Valid()
    modifies observer
    ensures observer.Valid() && observer.State() == Observe(old(observer.State()), id, update)
  {
    match update
    case UpdateRegion(r) => observer.OnRegion(r);
    case UpdateService(v, s) => observer.OnService(id, v, s);
    case RmService(v, name) => observer.OnRmService(id, v, name);
    case UpdatePayload(v, p) => observer.OnPayload(id, v, p);
    case RmPayload(v, pid) => observer.OnRmPayload(id, v, pid);
  }

  class RegionSubCacher {
    const regionId: string
    var updates: seq<Update>

    /** The announcement that starts the synchronisation is the first cached update. */
    constructor (announced: Region)
      ensures regionId == announced.id && updates == [UpdateRegion(announced)]
    {
      regionId := announced.id;
      updates := [UpdateRegion(announced)];
    }

    /** A publication of the region is queued, one of another region is dropped. */
    method OnRegion(r: Region)
      modifies this
      ensures updates == old(updates) + if r.id == regionId then [UpdateRegion(r)] else []
    {
      if r.id == regionId {
        updates := updates + [UpdateRegion(r)];
      }
    }

    method OnRmRegion(id: string)
      modifies this
      ensures updates == if id == regionId then [] else old(updates)
    {
      if id == regionId {
        updates := [];
      }
    }

    method OnService(id: string, version: uint32, svc: Service)
      modifies this
      ensures updates == old(updates) + if id == regionId then [UpdateService(version, svc)] else []
    {
      if id == regionId {
        updates := updates + [UpdateService(version, svc)];
      }
    }

    method OnRmService(id: string, version: uint32, name: string)
      modifies this
      ensures updates == old(updates) + if id == regionId then [RmService(version, name)] else []
    {
      if id == regionId {
        updates := updates + [RmService(version, name)];
      }
    }

    method OnPayload(id: string, version: uint32, pl: Payload)
      modifies this
      ensures updates == old(updates) + if id == regionId then [UpdatePayload(version, pl)] else []
    {
      if id == regionId {
        updates := updates + [UpdatePayload(version, pl)];
      }
    }

    method OnRmPayload(id: string, version: uint32, pid: string)
      modifies this
      ensures updates == old(updates) + if id == regionId then [RmPayload(version, pid)] else []
    {
      if id == regionId {
        updates := updates + [RmPayload(version, pid)];
      }
    }

    /** Replays the queue on `observer`; the queue always ends empty. */
    method Present(version: uint32, observer: RegionProduct) returns (result: int)
      requires observer.Valid()
      modifies this, observer
      ensures updates == [] && observer.Valid()
      ensures result == Replay(old(updates), version).result
      ensures observer.State() == ObserveAll(old(observer.State()), regionId, Replay(old(updates), version).tail)
    {
      hide RegionProduct.Valid, RegionProduct.State, Observe;
      var found := DropUntil(version);
      if !found {
        return -1;
      }
      PresentRun(Next(version), observer);
      if updates != [] {
        updates := [];
        return -1;
      } else {
        return 0;
      }
    }

    /** Pops updates up to and including the first one of `version`. */
    method DropUntil(version: uint32) returns (found: bool)
      modifies this
      ensures var m := FirstAt(old(updates), version);
              if m == |old(updates)| then !found && updates == [] else found && updates == old(updates)[m + 1..]
    {
      ghost var q := updates;
      ghost var i := 0;
      while updates != []
        invariant i <= FirstAt(q, version) && updates == q[i..]
        decreases |updates|
      {
        var update := updates[0];
        updates := updates[1..];
        if update.Version() == version {
          return true;
        }
        i := i + 1;
      }
      return false;
    }

    /** Presents and pops updates while their versions count on from `first`. */
    method PresentRun(first: uint32, observer: RegionProduct)
      requires observer.Valid()
      modifies this, observer
      ensures observer.Valid()
      ensures var n := Consecutive(old(updates), first);
              && updates == old(updates)[n..]
              && observer.State() == ObserveAll(old(observer.State()), regionId, old(updates)[..n])
    {
      hide RegionProduct.Valid, RegionProduct.State, Observe, ObserveAll, Consecutive, Plus, Next;
      ghost var rest, start := updates, observer.State();
      var expected := first;
      ghost var k := 0;
      PlusZero(first);
      ObserveNone(start, regionId, rest);
      while updates != []
        invariant k <= Consecutive(rest, first) && updates == rest[k..] && expected == Plus(first, k)
        invariant observer.Valid() && observer.State() == ObserveAll(start, regionId, rest[..k])
        decreases |updates|
      {
        var update := updates[0];
        if update.Version() != expected {
          break;
        }
        ObserveOneMore(start, regionId, rest, k);
        PlusOneMore(first, k);
        PresentUpdate(update, regionId, observer);
        updates := updates[1..];
        expected := Next(expected);
        k := k + 1;
      }
    }
  }
}
