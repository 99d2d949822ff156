/** The tracker's table as the groups of a snapshot: each region with what it provides. */
module TrackerGroups {
  import opened Types
  import opened Lists
  import opened Package
  import opened TrackerSpec

  /** The services of a region, in the order of the list of all services. */
  function ServicesOf(s: seq<Provided>, id: string): seq<Service> {
    if s == [] then []
    else ServicesOf(s[..|s| - 1], id) + if s[|s| - 1].region == id then [s[|s| - 1].service] else []
  }

  function PayloadsOf(s: seq<Carried>, id: string): seq<Payload> {
    if s == [] then []
    else PayloadsOf(s[..|s| - 1], id) + if s[|s| - 1].region == id then [s[|s| - 1].payload] else []
  }

  function GroupOf(r: Region, ss: seq<Provided>, ps: seq<Carried>): Group {
    Group(r, ServicesOf(ss, r.id), PayloadsOf(ps, r.id))
  }

  function Groups(rs: seq<Region>, ss: seq<Provided>, ps: seq<Carried>): (gs: seq<Group>)
    ensures |gs| == |rs|
  {
    seq(|rs|, i requires 0 <= i < |rs| => GroupOf(rs[i], ss, ps))
  }

  function GroupsOf(t: Table): seq<Group> {
    Groups(t.regions, t.services, t.payloads)
  }

  // Counting

  function Occurs(rs: seq<Region>, id: string): nat {
    if rs == [] then 0 else (if rs[0].id == id then 1 else 0) + Occurs(rs[1..], id)
  }

  lemma {:induction false} OccursOnce(rs: seq<Region>, id: string)
    requires DistinctKeys(rs, RegionKey)
    ensures Occurs(rs, id) == if HasKey(rs, RegionKey, id) then 1 else 0
  {
    if rs != [] {
      var t := rs[1..];
      assert DistinctKeys(t, RegionKey) by {
        forall i, j | 0 <= i < j < |t|
          ensures RegionKey(t[i]) != RegionKey(t[j])
        {
          assert RegionKey(rs[i + 1]) != RegionKey(rs[j + 1]);
        }
      }
      OccursOnce(t, id);
      forall i | 0 <= i < |t|
        ensures RegionKey(t[i]) != RegionKey(rs[0])
      {
        assert RegionKey(rs[0]) != RegionKey(rs[i + 1]);
      }
      HeadHas(rs, id);
    }
  }

  lemma {:induction false} HeadHas(rs: seq<Region>, id: string)
    requires rs != []
    ensures HasKey(rs, RegionKey, id) <==> rs[0].id == id || HasKey(rs[1..], RegionKey, id)
  {
    var t := rs[1..];
    if i :| 0 <= i < |t| && RegionKey(t[i]) == id {
      assert RegionKey(rs[i + 1]) == id;
    }
    if i :| 0 <= i < |rs| && RegionKey(rs[i]) == id {
      assert i > 0 ==> RegionKey(t[i - 1]) == id;
    }
    assert RegionKey(rs[0]) == rs[0].id;
  }

  /** One more service counts once for each region of its id; the same for payloads. */
  lemma {:induction false} CountMore(rs: seq<Region>, ss: seq<Provided>, ps: seq<Carried>, p: Provided, c: Carried)
    ensures ServiceCount(Groups(rs, ss + [p], ps)) == ServiceCount(Groups(rs, ss, ps)) + Occurs(rs, p.region)
    ensures PayloadCount(Groups(rs, ss, ps + [c])) == PayloadCount(Groups(rs, ss, ps)) + Occurs(rs, c.region)
  {
    hide ServicesOf, PayloadsOf;
    if rs != [] {
      CountMore(rs[1..], ss, ps, p, c);
      OneMore(ss, ps, p, c, rs[0].id);
      assert Groups(rs, ss + [p], ps)[1..] == Groups(rs[1..], ss + [p], ps);
      assert Groups(rs, ss, ps + [c])[1..] == Groups(rs[1..], ss, ps + [c]);
      assert Groups(rs, ss, ps)[1..] == Groups(rs[1..], ss, ps);
    }
  }

  lemma {:induction false} OneMore(ss: seq<Provided>, ps: seq<Carried>, p: Provided, c: Carried, id: string)
    ensures |ServicesOf(ss + [p], id)| == |ServicesOf(ss, id)| + if p.region == id then 1 else 0
    ensures |PayloadsOf(ps + [c], id)| == |PayloadsOf(ps, id)| + if c.region == id then 1 else 0
  {
    assert (ss + [p])[..|ss|] == ss && (ps + [c])[..|ps|] == ps;
  }

  lemma {:induction false} CountNone(rs: seq<Region>)
    ensures ServiceCount(Groups(rs, [], [])) == 0 && PayloadCount(Groups(rs, [], [])) == 0
  {
    if rs != [] {
      CountNone(rs[1..]);
      assert Groups(rs, [], [])[1..] == Groups(rs[1..], [], []);
    }
  }

  /** With live regions every service and every payload is in exactly one group. */
  lemma {:induction false} CountAll(rs: seq<Region>, ss: seq<Provided>, ps: seq<Carried>)
    requires DistinctKeys(rs, RegionKey)
    requires forall i :: 0 <= i < |ss| ==> HasKey(rs, RegionKey, ss[i].region)
    requires forall i :: 0 <= i < |ps| ==> HasKey(rs, RegionKey, ps[i].region)
    ensures ServiceCount(Groups(rs, ss, ps)) == |ss| && PayloadCount(Groups(rs, ss, ps)) == |ps|
    decreases |ss| + |ps|
  {
    hide DistinctKeys, HasKey, Groups, Occurs;
    if ss != [] {
      var s, p := ss[..|ss| - 1], ss[|ss| - 1];
      CountAll(rs, s, ps);
      CountMore(rs, s, ps, p, Carried("", Payload("", 0)));
      OccursOnce(rs, p.region);
      assert ss == s + [p];
      SameKinds(rs, ss, s, ps, ps);
    } else if ps != [] {
      var s, c := ps[..|ps| - 1], ps[|ps| - 1];
      CountAll(rs, ss, s);
      CountMore(rs, ss, s, Provided("", Service("", EndPoint("", ""), 0)), c);
      OccursOnce(rs, c.region);
      assert ps == s + [c];
      SameKinds(rs, ss, ss, ps, s);
    } else {
      CountNone(rs);
    }
  }

  /** The payloads of the groups do not depend on the services, nor the services on the payloads. */
  lemma {:induction false} SameKinds(rs: seq<Region>, ss: seq<Provided>, ss': seq<Provided>, ps: seq<Carried>,
                                     ps': seq<Carried>)
    ensures PayloadCount(Groups(rs, ss, ps)) == PayloadCount(Groups(rs, ss', ps))
    ensures ServiceCount(Groups(rs, ss, ps)) == ServiceCount(Groups(rs, ss, ps'))
  {
    hide ServicesOf, PayloadsOf;
    if rs != [] {
      SameKinds(rs[1..], ss, ss', ps, ps');
      assert Groups(rs, ss, ps)[1..] == Groups(rs[1..], ss, ps);
      assert Groups(rs, ss', ps)[1..] == Groups(rs[1..], ss', ps);
      assert Groups(rs, ss, ps')[1..] == Groups(rs[1..], ss, ps');
    }
  }

  /** The tracker's package frames itself and each region with two items and holds every service and
      every payload once: nothing is lost or invented, because every record has a live region. */
  lemma {:induction false} SnapshotLength(t: Table)
    requires t.Valid()
    ensures |PackageOf(GroupsOf(t))| == 2 + 2 * |t.regions| + |t.services| + |t.payloads|
  {
    hide DistinctKeys, HasKey;
    CountAll(t.regions, t.services, t.payloads);
    PackageLength(GroupsOf(t));
  }

  lemma {:induction false} ServicesOfMembers(s: seq<Provided>, id: string)
    ensures forall x :: x in ServicesOf(s, id) <==> Provided(id, x) in s
  {
    if s != [] {
      ServicesOfMembers(s[..|s| - 1], id);
      assert s == s[..|s| - 1] + [s[|s| - 1]];
    }
  }

  lemma {:induction false} PayloadsOfMembers(s: seq<Carried>, id: string)
    ensures forall x :: x in PayloadsOf(s, id) <==> Carried(id, x) in s
  {
    if s != [] {
      PayloadsOfMembers(s[..|s| - 1], id);
      assert s == s[..|s| - 1] + [s[|s| - 1]];
    }
  }

  // What the groups hold

  /** The positions, in order, of the rows of a region. */
  ghost predicate Positions<V>(s: seq<V>, key: V -> string, id: string, p: seq<nat>) {
    && (forall i :: 0 <= i < |p| ==> p[i] < |s|)
    && (forall i, j :: 0 <= i < j < |p| ==> p[i] < p[j])
    && (forall i :: 0 <= i < |s| ==> (key(s[i]) == id <==> i in p))
  }

  ghost predicate ServicesAt(s: seq<Provided>, id: string, p: seq<nat>, w: seq<Service>) {
    && Positions(s, ProvidedRegion, id, p)
    && |w| == |p| && forall i :: 0 <= i < |p| ==> w[i] == s[p[i]].service
  }

  ghost predicate PayloadsAt(s: seq<Carried>, id: string, p: seq<nat>, w: seq<Payload>) {
    && Positions(s, CarriedRegion, id, p)
    && |w| == |p| && forall i :: 0 <= i < |p| ==> w[i] == s[p[i]].payload
  }

  lemma {:induction false} MorePositions<V>(s: seq<V>, key: V -> string, id: string, p: seq<nat>)
    requires s != [] && Positions(s[..|s| - 1], key, id, p)
    ensures Positions(s, key, id, if key(s[|s| - 1]) == id then p + [|s| - 1] else p)
  {
    var n := |s| - 1;
    var q := if key(s[n]) == id then p + [n] else p;
    forall i | 0 <= i < |s|
      ensures key(s[i]) == id <==> i in q
    {
      if i < n {
        assert s[..n][i] == s[i];
      }
    }
  }

  lemma {:induction false} ServicesOfAre(s: seq<Provided>, id: string) returns (p: seq<nat>)
    ensures ServicesAt(s, id, p, ServicesOf(s, id))
  {
    hide Positions;
    p := [];
    if s != [] {
      p := ServicesOfAre(s[..|s| - 1], id);
      MorePositions(s, ProvidedRegion, id, p);
      PositionsFit(s[..|s| - 1], ProvidedRegion, id, p);
      p := if s[|s| - 1].region == id then p + [|s| - 1] else p;
    } else {
      NoPositions(ProvidedRegion, id);
    }
  }

  lemma {:induction false} PayloadsOfAre(s: seq<Carried>, id: string) returns (p: seq<nat>)
    ensures PayloadsAt(s, id, p, PayloadsOf(s, id))
  {
    hide Positions;
    p := [];
    if s != [] {
      p := PayloadsOfAre(s[..|s| - 1], id);
      MorePositions(s, CarriedRegion, id, p);
      PositionsFit(s[..|s| - 1], CarriedRegion, id, p);
      p := if s[|s| - 1].region == id then p + [|s| - 1] else p;
    } else {
      NoPositions(CarriedRegion, id);
    }
  }

  lemma {:induction false} PositionsFit<V>(s: seq<V>, key: V -> string, id: string, p: seq<nat>)
    requires Positions(s, key, id, p)
    ensures forall i :: 0 <= i < |p| ==> p[i] < |s|
  {
  }

  lemma {:induction false} NoPositions<V>(key: V -> string, id: string)
    ensures Positions([], key, id, [])
  {
  }

  /** One group for each region, in list order, with its record as it is, and with the services and
      payloads of exactly its rows, each list in the order of the table's. */
  lemma {:induction false} GroupsAre(t: Table)
    ensures |GroupsOf(t)| == |t.regions|
    ensures forall k :: 0 <= k < |t.regions| ==>
                          && GroupsOf(t)[k].region == t.regions[k]
                          && (exists p :: ServicesAt(t.services, t.regions[k].id, p, GroupsOf(t)[k].services))
                          && (exists p :: PayloadsAt(t.payloads, t.regions[k].id, p, GroupsOf(t)[k].payloads))
  {
    hide ServicesAt, PayloadsAt, ServicesOf, PayloadsOf;
    forall k | 0 <= k < |t.regions|
      ensures GroupsOf(t)[k].region == t.regions[k]
      ensures exists p :: ServicesAt(t.services, t.regions[k].id, p, GroupsOf(t)[k].services)
      ensures exists p :: PayloadsAt(t.payloads, t.regions[k].id, p, GroupsOf(t)[k].payloads)
    {
      var p := ServicesOfAre(t.services, t.regions[k].id);
      var q := PayloadsOfAre(t.payloads, t.regions[k].id);
    }
  }
}
