/** Why nothing of a region that runs expires: the period in which it republishes and the time for which
    the tracker waits. */
module Freshness {
  import opened Lists
  import opened RegionSpec
  import opened Republish
  import opened TrackerSpec
  import opened Expiry
  import opened AgreementRuns

  /** The republish period of services and payloads, in seconds. */
  const PERIOD_SEC := 60

  /** What is left of the tracker's patience after two periods. */
  const SLACK_MS := PAYLOAD_TIMEOUT_MS - 2 * PERIOD_SEC * 1000

  /** As many services as the budgets of one period cover. */
  const MAX_SERVICES := 300000

  /** The budgets of one period cover the position. */
  lemma {:induction false} BudgetsCover(s: RegionState, p: nat, w: Record, limit: nat)
    requires Waits(s, p, w, limit) && (w.OfService? ==> p < MAX_SERVICES)
    ensures Ticks(PERIOD_SEC) * REPEAT_TIMER_MS == PERIOD_SEC * 1000
    ensures Ticks(PERIOD_SEC) * Budget(s, w, PERIOD_SEC) > p
  {
    hide PayloadBudget;
    PeriodCovers(|s.payloads|, PERIOD_SEC, Ticks(PERIOD_SEC));
  }

  /** A record that was last published at `limit` is published again within two periods. */
  lemma {:induction false} WithinTwoPeriods(s: RegionState, es: seq<Event>, p: nat, w: Record, last: nat, limit: nat)
    requires s.observed && PERIOD_SEC * 1000 <= last <= limit + PERIOD_SEC * 1000
    requires Paced(s, es, w, PERIOD_SEC, last) && Waits(s, p, w, limit) && (w.OfService? ==> p < MAX_SERVICES)
    requires limit + 2 * PERIOD_SEC * 1000 <= LastTick(es, w, last)
    ensures RepublishedBy(s, es, w, limit + 2 * PERIOD_SEC * 1000)
  {
    hide Paced, Waits, RepublishedBy, LastTick, Budget;
    BudgetsCover(s, p, w, limit);
    GapBound(s, es, p, w, PERIOD_SEC, last, limit, Ticks(PERIOD_SEC), limit + 2 * PERIOD_SEC * 1000);
  }

  /** The tracker has a row that it received at `r`, not before the region had published it.  If the
      row is expired at `x`, and the region has run until the slack before that, then the region has
      published the record again since, and the tracker has not processed that for the whole slack.
      So while publications arrive within the slack, nothing of a running region expires. */
  lemma {:induction false} ExpiryMeansDelay(s: RegionState, es: seq<Event>, p: nat, w: Record, last: nat, limit: nat,
                                            r: nat, x: nat)
    requires s.observed && PERIOD_SEC * 1000 <= last <= limit + PERIOD_SEC * 1000
    requires Paced(s, es, w, PERIOD_SEC, last) && Waits(s, p, w, limit) && (w.OfService? ==> p < MAX_SERVICES)
    requires limit <= r && r + (if w.OfService? then SERVICE_TIMEOUT_MS else PAYLOAD_TIMEOUT_MS) <= x
    requires x <= LastTick(es, w, last) + SLACK_MS
    ensures RepublishedBy(s, es, w, x - SLACK_MS)
  {
    hide Paced, Waits, RepublishedBy, LastTick;
    WithinTwoPeriods(s, es, p, w, last, limit);
    ByLater(s, es, w, limit + 2 * PERIOD_SEC * 1000, x - SLACK_MS);
  }

  lemma {:induction false} ByLater(s: RegionState, es: seq<Event>, w: Record, u: nat, v: nat)
    requires RepublishedBy(s, es, w, u) && u <= v
    ensures RepublishedBy(s, es, w, v)
    decreases |es|
  {
    hide Step, Emitted, Announces;
    if RepublishedBy(Step(s, es[0]), es[1..], w, u) {
      ByLater(Step(s, es[0]), es[1..], w, u, v);
    }
  }

  /** No row has waited longer than its time. */
  ghost predicate Fresh(t: Table, now: nat) {
    && (forall p :: p in t.services ==> now < p.service.timeval + SERVICE_TIMEOUT_MS)
    && (forall c :: c in t.payloads ==> now < c.payload.timeval + PAYLOAD_TIMEOUT_MS)
  }

  /** If every row is fresh, the timer takes out whole regions only. */
  lemma {:induction false} FreshIsCalm(t: Table, now: nat)
    requires Fresh(t, now)
    ensures Calm(t, now)
  {
    hide Timeouted, DropRegions;
    var ids := Ids(Timeouted(t, now));
    DropsStayFresh(t, ids, now);
  }

  lemma {:induction false} DropsStayFresh(t: Table, ids: seq<string>, now: nat)
    requires Fresh(t, now)
    ensures Fresh(DropRegions(t, ids), now)
    decreases |ids|
  {
    if ids != [] {
      WithoutMembers(t.services, ProvidedRegion, ids[0]);
      WithoutMembers(t.payloads, CarriedRegion, ids[0]);
      DropsStayFresh(DropRegion(t, ids[0]), ids[1..], now);
    }
  }
}
