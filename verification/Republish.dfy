/** The republish deadline: the budget of a tick is large enough for any number of payloads, and
    brings every service forward by a hundred. */
module Republish {
  import opened Types
  import opened Lists
  import opened Publication
  import opened Sweep
  import opened RegionSpec
  import RegionEffects

  /** What is republished: a service, or a payload. */
  datatype Record = OfService(service: ServiceMsg) | OfPayload(id: string)

  function Announces(w: Record, version: uint32): Pub {
    match w
    case OfService(m) => PubService(version, m)
    case OfPayload(id) => PubPayload(version, id)
  }

  /** How many records a tick takes at most from the list of `w`. */
  function Budget(s: RegionState, w: Record, sec: nat): nat
    requires sec > 0
  {
    if w.OfService? then SERVICE_MAXCOUNT else PayloadBudget(|s.payloads|, sec)
  }

  /** The clock reading with which a tick sweeps the list of the record. */
  function Clock(e: Event, w: Record): nat
    requires e.PubRepeatedTimer?
  {
    if w.OfService? then e.now else e.now'
  }

  /** The timer fires with this period for the list of the record. */
  predicate Period(e: Event, w: Record, sec: nat) {
    e.PubRepeatedTimer? && sec == if w.OfService? then e.secService else e.secPayload
  }

  /** The timer fires with this period, and its clock does not go behind `t0`. */
  predicate TickFrom(e: Event, w: Record, sec: nat, t0: nat) {
    e.PubRepeatedTimer? ==> Period(e, w, sec) && Clock(e, w) >= t0
  }

  /** A service stays while other services go.  A payload may only be joined by others: its budget
      follows their number. */
  predicate Keeps(e: Event, w: Record) {
    match w
    case OfService(m) => e != Event.RmService(m.name)
    case OfPayload(_) => !e.RmPayload?
  }

  /** The events can happen one after another from `s` and keep what waits. */
  ghost predicate Legal(s: RegionState, es: seq<Event>, w: Record, sec: nat, t0: nat)
    decreases |es|
  {
    || es == []
    || (&& Enabled(s, es[0]) && KeepsObserver(s, es[0]) && Keeps(es[0], w) && TickFrom(es[0], w, sec, t0)
        && Legal(Step(s, es[0]), es[1..], w, sec, t0))
  }

  function TickCount(es: seq<Event>): nat {
    if es == [] then 0 else (if es[0].PubRepeatedTimer? then 1 else 0) + TickCount(es[1..])
  }

  /** One of the ticks publishes the record. */
  ghost predicate Republished(s: RegionState, es: seq<Event>, w: Record)
    decreases |es|
  {
    && es != [] && Enabled(s, es[0])
    && (|| (es[0].PubRepeatedTimer? && Announces(w, s.region.version) in Emitted(s, es[0]))
        || Republished(Step(s, es[0]), es[1..], w))
  }

  /** The record at `p` and everything before it was last published no later than `limit`. */
  ghost predicate Old<V>(list: seq<V>, p: nat, age: V -> nat, limit: nat) {
    p < |list| && forall i :: 0 <= i <= p ==> age(list[i]) <= limit
  }

  ghost predicate Waits(s: RegionState, p: nat, w: Record, limit: nat) {
    match w
    case OfService(m) => Old(s.services, p, ServiceAge, limit) && s.services[p].Wire() == m
    case OfPayload(id) => Old(s.payloads, p, PayloadAge, limit) && s.payloads[p].id == id
  }

  /** What is not a tick leaves the record where it is, or brings it forward. */
  lemma {:induction false} OtherEvent(s: RegionState, e: Event, p: nat, w: Record, limit: nat) returns (q: nat)
    requires Enabled(s, e) && Keeps(e, w) && !e.PubRepeatedTimer? && Waits(s, p, w, limit)
    ensures q <= p && Waits(Step(s, e), q, w, limit)
    ensures w.OfPayload? ==> |Step(s, e).payloads| >= |s.payloads|
  {
    hide Without;
    q := p;
    if w.OfService? && e.RmService? {
      if HasKey(s.services, ServiceKey, e.name) {
        q := OthersGo(s.services, p, e.name, limit);
      }
    }
  }

  lemma {:induction false} OthersGo(list: seq<Service>, p: nat, name: string, limit: nat) returns (q: nat)
    requires Old(list, p, ServiceAge, limit) && list[p].name != name
    ensures var rest := Without(list, ServiceKey, name);
            q <= p && Old(rest, q, ServiceAge, limit) && rest[q] == list[p]
  {
    if list[0].name == name {
      q := OthersGo(list[1..], p - 1, name, limit);
    } else if p == 0 {
      q := 0;
    } else {
      q := OthersGo(list[1..], p - 1, name, limit);
      q := q + 1;
    }
  }

  /** The sweep takes the front of the list; with the record at `p` expired, it takes the whole budget
      or reaches the record. */
  lemma {:induction false} SweepReaches<V(!new)>(list: seq<V>, age: V -> nat, stamp: (V, nat) -> V, p: nat,
                                                 timeout: nat, limit: nat, now: nat, budget: nat) returns (n: nat)
    requires 0 < timeout <= now && Stamps(age, stamp) && Old(list, p, age, limit)
    ensures n <= |list| && n <= budget && (limit + timeout <= now ==> n == budget || n > p)
    ensures var swept := SweepList(list, age, stamp, Sub64(now, timeout), now, budget);
            swept.out == Stamped(list[..n], stamp, now) && swept.list == list[n..] + swept.out
  {
    hide SweepList, Stamped, ExpiredPrefix, Stamps;
    var m := ExpiredPrefix(list, age, Sub64(now, timeout));
    SweepTakesExpiredPrefix(list, age, stamp, timeout, now, budget);
    assert m < |list| ==> age(list[m]) > now - timeout;
    n := Min(budget, m);
  }

  /** A tick publishes the record or leaves it no further back, and once the record has expired brings
      it forward by the whole budget. */
  lemma {:induction false} TickBringsForward(s: RegionState, e: Event, p: nat, w: Record, sec: nat, limit: nat)
    returns (q: nat)
    requires Period(e, w, sec) && Enabled(s, e) && s.observed && 0 < sec * 1000 <= Clock(e, w)
    requires Waits(s, p, w, limit)
    ensures |Step(s, e).payloads| == |s.payloads|
    ensures || Announces(w, s.region.version) in Emitted(s, e)
            || (q <= p && Waits(Step(s, e), q, w, limit)
                && (limit + sec * 1000 <= Clock(e, w) ==> q + Budget(s, w, sec) <= p))
  {
    hide SweepList, ServicePubs, PayloadPubs, PayloadBudget, Stamped, Emitted, Old, Stamps;
    RegionEffects.RecordStamps();
    SweepSize(s.payloads, PayloadAge, StampPayload, Sub64(e.now', e.secPayload * 1000), e.now',
              PayloadBudget(|s.payloads|, e.secPayload));
    var b, n := Budget(s, w, sec), 0;
    if w.OfService? {
      n := SweepReaches(s.services, ServiceAge, StampService, p, sec * 1000, limit, e.now, b);
      var swept := SweptServices(s, sec, e.now);
      if p < n {
        ServiceIsPublished(s, e, swept.out, n, p);
      } else {
        Forward(s.services, swept.list, swept.out, ServiceAge, n, p, limit);
      }
    } else {
      n := SweepReaches(s.payloads, PayloadAge, StampPayload, p, sec * 1000, limit, e.now', b);
      var swept := SweptPayloads(s, sec, e.now');
      if p < n {
        PayloadIsPublished(s, e, swept.out, n, p);
      } else {
        Forward(s.payloads, swept.list, swept.out, PayloadAge, n, p, limit);
      }
    }
    q := if p < n then p else p - n;
  }

  /** A sweep rotates its list. */
  lemma {:induction false} SweepSize<V>(list: seq<V>, age: V -> nat, stamp: (V, nat) -> V, expired: int, now: nat,
                                        budget: nat)
    ensures |SweepList(list, age, stamp, expired, now, budget).list| == |list|
    decreases budget
  {
    if budget > 0 && |list| > 1 {
      SweepSize(list[1..] + [stamp(list[0], now)], age, stamp, expired, now, budget - 1);
    }
  }

  lemma {:induction false} Forward<V>(list: seq<V>, swept: seq<V>, out: seq<V>, age: V -> nat, n: nat, p: nat,
                                      limit: nat)
    requires n <= p && Old(list, p, age, limit) && swept == list[n..] + out
    ensures Old(swept, p - n, age, limit) && swept[p - n] == list[p]
  {
    assert forall i :: 0 <= i <= p - n ==> swept[i] == list[n + i];
  }

  lemma {:induction false} ServiceIsPublished(s: RegionState, e: Event, out: seq<Service>, n: nat, p: nat)
    requires e.PubRepeatedTimer? && Enabled(s, e) && s.observed && out == SweptServices(s, e.secService, e.now).out
    requires p < n <= |s.services| && out == Stamped(s.services[..n], StampService, e.now)
    ensures PubService(s.region.version, s.services[p].Wire()) in Emitted(s, e)
  {
    hide SweepList;
    var svcs := ServicePubs(s.region.version, out);
    var pubs := PayloadPubs(s.region.version, SweptPayloads(s, e.secPayload, e.now').out);
    assert s.services[..n][p] == s.services[p];
    assert out[p] == StampService(s.services[p], e.now);
    assert svcs[p] == PubService(s.region.version, s.services[p].Wire());
    assert Emitted(s, e) == svcs + pubs;
    assert (svcs + pubs)[p] == svcs[p];
  }

  lemma {:induction false} PayloadIsPublished(s: RegionState, e: Event, out: seq<Payload>, n: nat, p: nat)
    requires e.PubRepeatedTimer? && Enabled(s, e) && s.observed && out == SweptPayloads(s, e.secPayload, e.now').out
    requires p < n <= |s.payloads| && out == Stamped(s.payloads[..n], StampPayload, e.now')
    ensures PubPayload(s.region.version, s.payloads[p].id) in Emitted(s, e)
  {
    hide SweepList;
    var svcs := ServicePubs(s.region.version, SweptServices(s, e.secService, e.now).out);
    var pubs := PayloadPubs(s.region.version, out);
    assert s.payloads[..n][p] == s.payloads[p];
    assert out[p] == StampPayload(s.payloads[p], e.now');
    assert pubs[p] == PubPayload(s.region.version, s.payloads[p].id);
    assert Emitted(s, e) == svcs + pubs;
    assert (svcs + pubs)[|svcs| + p] == pubs[p];
  }

  lemma {:induction false} TicksNeedEvents(es: seq<Event>, budget: nat)
    ensures TickCount(es) * budget > 0 ==> es != []
  {
  }

  /** With ticks enough for its position, the record is published. */
  lemma {:induction false} EnoughTicks(s: RegionState, es: seq<Event>, p: nat, w: Record, sec: nat, t0: nat)
    requires 0 < sec * 1000 <= t0 && s.observed
    requires Legal(s, es, w, sec, t0) && Waits(s, p, w, t0 - sec * 1000)
    requires TickCount(es) * Budget(s, w, sec) > p
    ensures Republished(s, es, w)
    decreases |es|
  {
    hide Step, Waits, Emitted, PayloadBudget, Keeps, Announces;
    TicksNeedEvents(es, Budget(s, w, sec));
    if es != [] {
      var e, rest, b := es[0], es[1..], Budget(s, w, sec);
      StaysObserved(s, e);
      if e.PubRepeatedTimer? {
        var q := TickBringsForward(s, e, p, w, sec, t0 - sec * 1000);
        if Announces(w, s.region.version) !in Emitted(s, e) {
          assert TickCount(es) == 1 + TickCount(rest);
          assert (1 + TickCount(rest)) * b == b + TickCount(rest) * b;
          EnoughTicks(Step(s, e), rest, q, w, sec, t0);
        }
      } else {
        var q := OtherEvent(s, e, p, w, t0 - sec * 1000);
        if w.OfPayload? {
          BudgetGrows(|s.payloads|, |Step(s, e).payloads|, sec);
        }
        MulGrows(TickCount(rest), b, Budget(Step(s, e), w, sec));
        EnoughTicks(Step(s, e), rest, q, w, sec, t0);
      }
    }
  }

  lemma {:induction false} StaysObserved(s: RegionState, e: Event)
    requires Enabled(s, e) && KeepsObserver(s, e) && s.observed
    ensures Step(s, e).observed
  {
    hide SweepList;
  }

  lemma {:induction false} BudgetGrows(a: nat, b: nat, sec: nat)
    requires a <= b && sec > 0
    ensures PayloadBudget(a, sec) <= PayloadBudget(b, sec)
  {
    hide Ticks;
    QuotientGrows(a, b, Ticks(sec));
  }

  function Quotient(a: nat, t: nat): (q: nat)
    requires t > 0
    ensures q * t <= a < (q + 1) * t
  {
    a / t
  }

  lemma {:induction false} QuotientGrows(a: nat, b: nat, t: nat)
    requires a <= b && t > 0
    ensures Quotient(a, t) <= Quotient(b, t)
  {
    hide Quotient;
    MulOrder(Quotient(a, t), Quotient(b, t), t);
  }

  lemma {:induction false} MulOrder(q: nat, r: nat, t: nat)
    requires q * t < (r + 1) * t
    ensures q <= r
  {
    MulGrows(t, r + 1, q);
  }

  lemma {:induction false} MulGrows(n: nat, a: nat, b: nat)
    ensures a <= b ==> n * a <= n * b
  {
  }

  /** The budgets of one republish period cover the whole list. */
  lemma {:induction false} PeriodCovers(size: nat, sec: nat, ticks: nat)
    requires sec > 0 && ticks >= Ticks(sec)
    ensures ticks * PayloadBudget(size, sec) > size
  {
    var t := Ticks(sec);
    assert t > 0;
    var q := size / t;
    assert size < q * t + t;
    MulGrows(q + 100, t, ticks);
    assert t * (q + 100) == q * t + 100 * t;
  }

  lemma {:induction false} SortedOld<V>(list: seq<V>, p: nat, age: V -> nat, limit: nat)
    requires p < |list| && Sorted(list, age) && age(list[p]) <= limit
    ensures Old(list, p, age, limit)
  {
  }

  /** However many payloads a region holds, and whatever is added behind it, a payload that has
      expired is republished within one republish period of ticks, while no payload is removed. */
  lemma {:induction false} RepublishDeadline(s: RegionState, es: seq<Event>, p: nat, sec: nat, t0: nat)
    requires s.observed && sec > 0 && p < |s.payloads| && Sorted(s.payloads, PayloadAge)
    requires s.payloads[p].timeval + sec * 1000 <= t0
    requires Legal(s, es, OfPayload(s.payloads[p].id), sec, t0) && TickCount(es) >= Ticks(sec)
    ensures Republished(s, es, OfPayload(s.payloads[p].id))
  {
    hide Legal, Republished;
    SortedOld(s.payloads, p, PayloadAge, t0 - sec * 1000);
    PeriodCovers(|s.payloads|, sec, TickCount(es));
    EnoughTicks(s, es, p, OfPayload(s.payloads[p].id), sec, t0);
  }

  /** A service that has expired is republished within one tick for each hundred services up to it,
      whatever is added behind it and whatever other service is removed. */
  lemma {:induction false} ServiceDeadline(s: RegionState, es: seq<Event>, p: nat, sec: nat, t0: nat)
    requires s.observed && sec > 0 && p < |s.services| && Sorted(s.services, ServiceAge)
    requires s.services[p].timeval + sec * 1000 <= t0
    requires Legal(s, es, OfService(s.services[p].Wire()), sec, t0) && TickCount(es) > p / SERVICE_MAXCOUNT
    ensures Republished(s, es, OfService(s.services[p].Wire()))
  {
    hide Legal, Republished;
    SortedOld(s.services, p, ServiceAge, t0 - sec * 1000);
    EnoughTicks(s, es, p, OfService(s.services[p].Wire()), sec, t0);
  }

  // How long a record stays away

  /** The events can happen one after another from `s` and keep what waits; the timer fires with this
      period, its clock does not go back, and not more than a tick passes from one to the next. */
  ghost predicate Paced(s: RegionState, es: seq<Event>, w: Record, sec: nat, last: nat)
    decreases |es|
  {
    || es == []
    || (&& Enabled(s, es[0]) && KeepsObserver(s, es[0]) && Keeps(es[0], w)
        && (es[0].PubRepeatedTimer? ==>
              Period(es[0], w, sec) && last <= Clock(es[0], w) <= last + REPEAT_TIMER_MS)
        && Paced(Step(s, es[0]), es[1..], w, sec, if es[0].PubRepeatedTimer? then Clock(es[0], w) else last))
  }

  /** The clock of the last tick. */
  function LastTick(es: seq<Event>, w: Record, last: nat): nat {
    if es == [] then last
    else LastTick(es[1..], w, if es[0].PubRepeatedTimer? then Clock(es[0], w) else last)
  }

  /** A tick at `u` or before publishes the record. */
  ghost predicate RepublishedBy(s: RegionState, es: seq<Event>, w: Record, u: nat)
    decreases |es|
  {
    && es != [] && Enabled(s, es[0])
    && (|| (es[0].PubRepeatedTimer? && Clock(es[0], w) <= u && Announces(w, s.region.version) in Emitted(s, es[0]))
        || RepublishedBy(Step(s, es[0]), es[1..], w, u))
  }

  /** A record last published at `limit` or before is published again `m` ticks after it has expired
      if `m` budgets cover its position. */
  lemma {:induction false} GapBound(s: RegionState, es: seq<Event>, p: nat, w: Record, sec: nat, last: nat,
                                    limit: nat, m: nat, u: nat)
    requires 0 < sec * 1000 <= last && s.observed && Paced(s, es, w, sec, last) && Waits(s, p, w, limit)
    requires m * Budget(s, w, sec) > p
    requires limit + sec * 1000 + m * REPEAT_TIMER_MS <= u && last + m * REPEAT_TIMER_MS <= u <= LastTick(es, w, last)
    ensures RepublishedBy(s, es, w, u)
    decreases |es|
  {
    hide Step, Waits, Emitted, PayloadBudget, Keeps, Announces, Enabled, KeepsObserver;
    assert m > 0;
    if es != [] {
      var e, rest, b := es[0], es[1..], Budget(s, w, sec);
      StaysObserved(s, e);
      if e.PubRepeatedTimer? {
        var q := TickBringsForward(s, e, p, w, sec, limit);
        if Announces(w, s.region.version) !in Emitted(s, e) {
          if limit + sec * 1000 <= Clock(e, w) {
            assert m * b == (m - 1) * b + b;
            GapBound(Step(s, e), rest, q, w, sec, Clock(e, w), limit, m - 1, u);
          } else {
            GapBound(Step(s, e), rest, q, w, sec, Clock(e, w), limit, m, u);
          }
        }
      } else {
        var q := OtherEvent(s, e, p, w, limit);
        if w.OfPayload? {
          BudgetGrows(|s.payloads|, |Step(s, e).payloads|, sec);
        }
        MulGrows(m, b, Budget(Step(s, e), w, sec));
        GapBound(Step(s, e), rest, q, w, sec, last, limit, m, u);
      }
    }
  }
}
