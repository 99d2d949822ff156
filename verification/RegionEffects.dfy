/** What every event does to a region's lists and what it publishes, said without the operations. */
module RegionEffects {
  import opened Types
  import opened Lists
  import opened Keyed
  import opened Publication
  import opened Sweep
  import opened RegionSpec

  /** Adding: a complete and new record goes to the back under the next version, and is published. */
  lemma {:induction false} AdditionEffect(s: RegionState, svc: Service, pl: Payload)
    ensures var e, t := Event.AddService(svc), Step(s, Event.AddService(svc));
            if svc.Good() && !HasKey(s.services, ServiceKey, svc.name) then
              && t.services == s.services + [svc] && t.payloads == s.payloads
              && t.region == s.region.(version := (s.region.version + 1) % 0x1_0000_0000)
              && Emitted(s, e) == if s.observed then [PubService(t.region.version, ServiceMsg(svc.name, svc.endpoint))]
                                  else []
            else t == s && Emitted(s, e) == []
    ensures var e, t := Event.AddPayload(pl), Step(s, Event.AddPayload(pl));
            if pl.Good() && !HasKey(s.payloads, PayloadKey, pl.id) then
              && t.payloads == s.payloads + [pl] && t.services == s.services
              && t.region == s.region.(version := (s.region.version + 1) % 0x1_0000_0000)
              && Emitted(s, e) == if s.observed then [PubPayload(t.region.version, pl.id)] else []
            else t == s && Emitted(s, e) == []
  {
    hide HasKey;
  }

  /** Removing: the record leaves the others as they are, under the next version, and that is published. */
  lemma {:induction false} RemovalEffect(s: RegionState, name: string, id: string)
    ensures var e, t := Event.RmService(name), Step(s, Event.RmService(name));
            if HasKey(s.services, ServiceKey, name) then
              && KeepsOrder(s.services, t.services, ServiceKey, name) && t.payloads == s.payloads
              && t.region == s.region.(version := (s.region.version + 1) % 0x1_0000_0000)
              && Emitted(s, e) == if s.observed then [PubRmService(t.region.version, name)] else []
            else t == s && Emitted(s, e) == []
    ensures var e, t := Event.RmPayload(id), Step(s, Event.RmPayload(id));
            if HasKey(s.payloads, PayloadKey, id) then
              && KeepsOrder(s.payloads, t.payloads, PayloadKey, id) && t.services == s.services
              && t.region == s.region.(version := (s.region.version + 1) % 0x1_0000_0000)
              && Emitted(s, e) == if s.observed then [PubRmPayload(t.region.version, id)] else []
            else t == s && Emitted(s, e) == []
  {
    hide HasKey, KeepsOrder, Without;
    WithoutIsOrdered(s.services, ServiceKey, name);
    WithoutIsOrdered(s.payloads, PayloadKey, id);
  }

  /** Starting announces the record to the observer, and only then; stopping withdraws the region; in
      between every heartbeat announces it again.  None of them touches the lists or the version. */
  lemma {:induction false} LifeEffect(s: RegionState, observer: bool)
    ensures var t, record := Step(s, Start(observer)), RegionMsg(s.region.id, s.region.version, s.region.idc,
                                                                 s.region.bus, s.region.snapshot);
            && t.active && t.observed == (if s.active then s.observed else observer)
            && Emitted(s, Start(observer)) == (if !s.active && observer then [PubRegion(record)] else [])
            && t == s.(active := true, observed := t.observed, published := t.published)
    ensures var t := Step(s, Stop);
            && !t.active && t == s.(active := false, published := t.published)
            && Emitted(s, Stop) == if s.active && s.observed then [PubRmRegion] else []
    ensures s.active ==>
              var t, record := Step(s, PubRegionTimer), RegionMsg(s.region.id, s.region.version, s.region.idc,
                                                                  s.region.bus, s.region.snapshot);
              && t == s.(published := t.published)
              && Emitted(s, PubRegionTimer) == if s.observed then [PubRegion(record)] else []
  {
  }

  /** Nobody is told anything without an observer, and a tick then does nothing at all. */
  lemma {:induction false} UnobservedTick(s: RegionState, e: Event)
    requires Enabled(s, e) && e.PubRepeatedTimer? && !s.observed
    ensures Step(s, e) == s && Emitted(s, e) == []
  {
  }

  /** A tick, with periods that the clock has passed: of each list the expired front goes to the back
      with the stamp of the tick, at most 100 services and P / T + 100 payloads, and exactly those are
      published, services first, under the current version. */
  lemma {:induction false} TickEffect(s: RegionState, ss: nat, sp: nat, now: nat, now': nat) returns (m: nat, n: nat)
    requires s.active && s.observed && 0 < ss * 1000 <= now && 0 < sp * 1000 <= now'
    ensures Front(s.services, ServiceAge, m, ss * 1000, now, 100)
    ensures Front(s.payloads, PayloadAge, n, sp * 1000, now', |s.payloads| / (sp * 1000 / 20) + 100)
    ensures var e := PubRepeatedTimer(ss, sp, now, now');
            var t, v := Step(s, e), s.region.version;
            && t == s.(services := t.services, payloads := t.payloads, published := t.published)
            && t.services == s.services[m..]
                             + seq(m, i requires 0 <= i < m => Service(s.services[i].name, s.services[i].endpoint, now))
            && t.payloads == s.payloads[n..] + seq(n, i requires 0 <= i < n => Payload(s.payloads[i].id, now'))
            && Emitted(s, e) ==
               seq(m, i requires 0 <= i < m => PubService(v, ServiceMsg(s.services[i].name, s.services[i].endpoint)))
               + seq(n, i requires 0 <= i < n => PubPayload(v, s.payloads[i].id))
  {
    hide Front, SweepList, Emitted;
    var budget := PayloadBudget(|s.payloads|, sp);
    RecordStamps();
    m := FrontSwept(s.services, ServiceAge, StampService, ss * 1000, now, SERVICE_MAXCOUNT);
    n := FrontSwept(s.payloads, PayloadAge, StampPayload, sp * 1000, now', budget);
    TickEmits(s, ss, sp, now, now');
    FrontFits(s.services, ServiceAge, m, ss * 1000, now, SERVICE_MAXCOUNT);
    FrontFits(s.payloads, PayloadAge, n, sp * 1000, now', budget);
    assert forall i :: 0 <= i < m ==> s.services[..m][i] == s.services[i];
    assert forall i :: 0 <= i < n ==> s.payloads[..n][i] == s.payloads[i];
  }

  lemma {:induction false} FrontSwept<V(!new)>(list: seq<V>, age: V -> nat, stamp: (V, nat) -> V, timeout: nat,
                                               now: nat, budget: nat) returns (n: nat)
    requires Stamps(age, stamp) && 0 < timeout <= now
    ensures Front(list, age, n, timeout, now, budget)
    ensures n <= |list|
    ensures var r := SweepList(list, age, stamp, Sub64(now, timeout), now, budget);
            r.out == Stamped(list[..n], stamp, now) && r.list == list[n..] + Stamped(list[..n], stamp, now)
  {
    hide SweepList, Stamped, Stamps;
    SweepTakesExpiredPrefix(list, age, stamp, timeout, now, budget);
    n := Min(budget, ExpiredPrefix(list, age, Sub64(now, timeout)));
  }

  lemma {:induction false} TickEmits(s: RegionState, ss: nat, sp: nat, now: nat, now': nat)
    requires s.active && s.observed && sp > 0
    ensures var e := PubRepeatedTimer(ss, sp, now, now');
            var x, y := SweptServices(s, ss, now), SweptPayloads(s, sp, now');
            && Step(s, e) == s.(services := x.list, payloads := y.list, published := Step(s, e).published)
            && Emitted(s, e) == ServicePubs(s.region.version, x.out) + PayloadPubs(s.region.version, y.out)
  {
    hide SweepList;
  }

  lemma {:induction false} RecordStamps()
    ensures Stamps(ServiceAge, StampService) && Stamps(PayloadAge, StampPayload)
  {
    forall v: Service, t: nat
      ensures ServiceAge(StampService(v, t)) == t
    {
    }
    forall v: Payload, t: nat
      ensures PayloadAge(StampPayload(v, t)) == t
    {
    }
  }
}
