/** What a region publishes, what a tracker makes of it, and the content of a region. */
module Publication {
  import opened Types
  import opened Lists

  /** A message on the publication channel of one region. */
  datatype Pub =
    | PubRegion(region: RegionMsg)
    | PubRmRegion
    | PubService(version: uint32, service: ServiceMsg)
    | PubRmService(version: uint32, name: string)
    | PubPayload(version: uint32, uuid: string)
    | PubRmPayload(version: uint32, uuid: string)

  /** A received publication that can wait in a queue (`PubData`). */
  datatype Update =
    | UpdateRegion(region: Region)
    | UpdateService(ver: uint32, service: Service)
    | RmService(ver: uint32, name: string)
    | UpdatePayload(ver: uint32, payload: Payload)
    | RmPayload(ver: uint32, id: string)
  {
    function Version(): uint32 {
      if UpdateRegion? then region.version else ver
    }

    function Wire(): Pub {
      match this
      case UpdateRegion(r) => PubRegion(r.Wire())
      case UpdateService(v, s) => PubService(v, s.Wire())
      case RmService(v, n) => PubRmService(v, n)
      case UpdatePayload(v, p) => PubPayload(v, p.id)
      case RmPayload(v, i) => PubRmPayload(v, i)
    }
  }

  /** The subscriber rebuilds the record and stamps it with its own clock. */
  function Received(p: Pub, now: nat): (u: Update)
    requires !p.PubRmRegion?
    ensures u.Wire() == p
  {
    match p
    case PubRegion(r) => UpdateRegion(r.Stamp(now))
    case PubService(v, s) => UpdateService(v, s.Stamp(now))
    case PubRmService(v, n) => RmService(v, n)
    case PubPayload(v, i) => UpdatePayload(v, Payload(i, now))
    case PubRmPayload(v, i) => RmPayload(v, i)
  }

  /** What a region holds, apart from order and time stamps. */
  datatype Content = Content(services: map<string, EndPoint>, payloads: set<string>)

  function Apply(c: Content, p: Pub): Content {
    match p
    case PubRegion(_) => c
    case PubRmRegion => Content(map[], {})
    case PubService(_, s) => c.(services := c.services[s.name := s.endpoint])
    case PubRmService(_, n) => c.(services := c.services - {n})
    case PubPayload(_, i) => c.(payloads := c.payloads + {i})
    case PubRmPayload(_, i) => c.(payloads := c.payloads - {i})
  }

  function ServiceMap(s: seq<Service>): map<string, EndPoint> {
    if s == [] then map[]
    else ServiceMap(s[..|s| - 1])[s[|s| - 1].name := s[|s| - 1].endpoint]
  }

  function PayloadSet(s: seq<Payload>): set<string> {
    set p | p in s :: p.id
  }

  function ContentOf(services: seq<Service>, payloads: seq<Payload>): Content {
    Content(ServiceMap(services), PayloadSet(payloads))
  }

  lemma {:induction false} ServiceMapAppend(s: seq<Service>, x: Service)
    ensures ServiceMap(s + [x]) == ServiceMap(s)[x.name := x.endpoint]
  {
    assert (s + [x])[..|s|] == s;
  }

  lemma {:induction false} ServiceMapKeys(s: seq<Service>)
    ensures forall k :: k in ServiceMap(s) <==> HasKey(s, ServiceKey, k)
  {
    if s != [] {
      var t := s[..|s| - 1];
      ServiceMapKeys(t);
      forall k | HasKey(s, ServiceKey, k)
        ensures k in ServiceMap(s)
      {
        var i :| 0 <= i < |s| && ServiceKey(s[i]) == k;
        if i < |t| {
          assert ServiceKey(t[i]) == k;
        }
      }
      forall k | k in ServiceMap(s)
        ensures HasKey(s, ServiceKey, k)
      {
        if k == s[|s| - 1].name {
          assert ServiceKey(s[|s| - 1]) == k;
        } else {
          assert k in ServiceMap(t) && HasKey(t, ServiceKey, k);
          var i :| 0 <= i < |t| && ServiceKey(t[i]) == k;
          assert ServiceKey(s[i]) == k;
        }
      }
    }
  }

  lemma {:induction false} ServiceMapWithout(s: seq<Service>, k: string)
    ensures ServiceMap(Without(s, ServiceKey, k)) == ServiceMap(s) - {k}
  {
    if s != [] {
      var t, x := s[..|s| - 1], s[|s| - 1];
      assert s == t + [x];
      WithoutAppend(t, [x], ServiceKey, k);
      ServiceMapWithout(t, k);
      if x.name != k {
        assert Without([x], ServiceKey, k) == [x];
        ServiceMapAppend(Without(t, ServiceKey, k), x);
      } else {
        assert Without([x], ServiceKey, k) == [];
        assert Without(s, ServiceKey, k) == Without(t, ServiceKey, k);
      }
    }
  }

  lemma {:induction false} ServiceMapAt(s: seq<Service>, i: nat)
    requires i < |s| && DistinctKeys(s, ServiceKey)
    ensures s[i].name in ServiceMap(s) && ServiceMap(s)[s[i].name] == s[i].endpoint
  {
    if i < |s| - 1 {
      var t := s[..|s| - 1];
      assert ServiceKey(s[i]) != ServiceKey(s[|s| - 1]);
      assert DistinctKeys(t, ServiceKey) by {
        forall a, b | 0 <= a < b < |t|
          ensures ServiceKey(t[a]) != ServiceKey(t[b])
        {
          assert ServiceKey(s[a]) != ServiceKey(s[b]);
        }
      }
      ServiceMapAt(t, i);
    }
  }

  lemma {:induction false} PayloadSetWithout(s: seq<Payload>, k: string)
    ensures PayloadSet(Without(s, PayloadKey, k)) == PayloadSet(s) - {k}
  {
    WithoutMembers(s, PayloadKey, k);
  }

  /** Adding a record that is not yet there. */
  lemma {:induction false} ContentAdd(ss: seq<Service>, ps: seq<Payload>, s: Service, p: Payload)
    ensures ContentOf(ss + [s], ps) == ContentOf(ss, ps).(services := ServiceMap(ss)[s.name := s.endpoint])
    ensures ContentOf(ss, ps + [p]) == ContentOf(ss, ps).(payloads := PayloadSet(ps) + {p.id})
  {
    ServiceMapAppend(ss, s);
    assert PayloadSet(ps + [p]) == PayloadSet(ps) + {p.id};
  }

  /** Updating a record and moving it to the back, or adding it: the content afterwards is the same. */
  lemma {:induction false} ContentPut(ss: seq<Service>, ps: seq<Payload>, s: Service, p: Payload)
    ensures ServiceMap(Without(ss, ServiceKey, s.name) + [s]) == ServiceMap(ss)[s.name := s.endpoint]
    ensures PayloadSet(Without(ps, PayloadKey, p.id) + [p]) == PayloadSet(ps) + {p.id}
  {
    hide ServiceMap, PayloadSet, Without;
    ServiceMapWithout(ss, s.name);
    ServiceMapAppend(Without(ss, ServiceKey, s.name), s);
    PayloadSetWithout(ps, p.id);
    PayloadSetAppend(Without(ps, PayloadKey, p.id), p);
    assert PayloadSet(ps) - {p.id} + {p.id} == PayloadSet(ps) + {p.id};
  }

  lemma {:induction false} PayloadSetAppend(s: seq<Payload>, x: Payload)
    ensures PayloadSet(s + [x]) == PayloadSet(s) + {x.id}
  {
  }
}
