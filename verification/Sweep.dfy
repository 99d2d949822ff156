/** The republish sweep over a list ordered by last publication (least recent first). */
module Sweep {
  import opened Types

  /** What a sweep leaves: the list, and the records to publish again. */
  datatype Swept<V> = Swept(list: seq<V>, out: seq<V>)

  /** One record after another is stamped and moved to the back while the front is expired.
      The iterator steps before its node moves, so it leaves a one-element list after one round
      and otherwise goes on into records it has already moved. */
  function SweepList<V>(list: seq<V>, age: V -> nat, stamp: (V, nat) -> V, expired: int, now: nat,
                        maxcount: nat): Swept<V>
    decreases maxcount
  {
    if maxcount == 0 || list == [] || age(list[0]) > expired then Swept(list, [])
    else
      var x := stamp(list[0], now);
      if |list| == 1 then Swept([x], [x])
      else
        var r := SweepList(list[1..] + [x], age, stamp, expired, now, maxcount - 1);
        Swept(r.list, [x] + r.out)
  }

  /** One round of the loop. */
  lemma {:induction false} SweepRound<V>(list: seq<V>, age: V -> nat, stamp: (V, nat) -> V, expired: int, now: nat,
                                         maxcount: nat)
    ensures var r := SweepList(list, age, stamp, expired, now, maxcount);
            if maxcount == 0 || list == [] || age(list[0]) > expired then r == Swept(list, [])
            else
              var x := stamp(list[0], now);
              var rest :=
                if |list| == 1 then Swept([x], [])
                else SweepList(list[1..] + [x], age, stamp, expired, now, maxcount - 1);
              r == Swept(rest.list, [x] + rest.out)
  {
  }

  function Stamped<V>(s: seq<V>, stamp: (V, nat) -> V, now: nat): (r: seq<V>)
    ensures |r| == |s|
  {
    seq(|s|, i requires 0 <= i < |s| => stamp(s[i], now))
  }

  /** The length of the longest prefix of expired records. */
  function ExpiredPrefix<V>(s: seq<V>, age: V -> nat, expired: int): (n: nat)
    ensures n <= |s|
    ensures forall i :: 0 <= i < n ==> age(s[i]) <= expired
    ensures n < |s| ==> age(s[n]) > expired
  {
    if s == [] || age(s[0]) > expired then 0 else 1 + ExpiredPrefix(s[1..], age, expired)
  }

  lemma {:induction false} ExpiredRound<V>(s: seq<V>, age: V -> nat, expired: int)
    ensures ExpiredPrefix(s, age, expired) ==
            if s == [] || age(s[0]) > expired then 0 else 1 + ExpiredPrefix(s[1..], age, expired)
  {
  }

  function Min(a: nat, b: nat): nat {
    if a <= b then a else b
  }

  ghost predicate Stamps<V(!new)>(age: V -> nat, stamp: (V, nat) -> V) {
    forall v, t {:trigger stamp(v, t)} :: age(stamp(v, t)) == t
  }

  ghost predicate Sorted<V>(s: seq<V>, age: V -> nat) {
    forall i, j :: 0 <= i < j < |s| ==> age(s[i]) <= age(s[j])
  }

  /** The first `n` rows have expired, and `n` is the budget or no further row at the front has. */
  ghost predicate Front<V>(list: seq<V>, age: V -> nat, n: nat, timeout: nat, now: nat, budget: nat) {
    && n <= |list| && n <= budget
    && (forall i :: 0 <= i < n ==> age(list[i]) + timeout <= now)
    && (n < budget && n < |list| ==> now < age(list[n]) + timeout)
  }

  lemma {:induction false} FrontFits<V>(list: seq<V>, age: V -> nat, n: nat, timeout: nat, now: nat, budget: nat)
    requires Front(list, age, n, timeout, now, budget)
    ensures n <= |list|
  {
  }

  /** With a positive timeout and a clock past it, a sweep takes the longest expired prefix, up to
      `maxcount`: each of its records once, re-stamped and rotated to the back. */
  lemma {:induction false} SweepTakesExpiredPrefix<V(!new)>(list: seq<V>, age: V -> nat, stamp: (V, nat) -> V,
                                                            timeout: nat, now: nat, maxcount: nat)
    requires Stamps(age, stamp) && 0 < timeout <= now
    ensures var expired := Sub64(now, timeout);
            var n := Min(maxcount, ExpiredPrefix(list, age, expired));
            var r := SweepList(list, age, stamp, expired, now, maxcount);
            r.out == Stamped(list[..n], stamp, now) && r.list == list[n..] + r.out
  {
    SweepRotates(list, [], age, stamp, Sub64(now, timeout), now, maxcount);
    assert list + [] == list;
  }

  /** The records in `done` are already stamped; the sweep never reaches past `rest`. */
  lemma {:induction false} SweepRotates<V(!new)>(rest: seq<V>, done: seq<V>, age: V -> nat, stamp: (V, nat) -> V,
                                                 expired: int, now: nat, maxcount: nat)
    requires Stamps(age, stamp) && expired < now
    requires forall v :: v in done ==> age(v) == now
    ensures var n := Min(maxcount, ExpiredPrefix(rest, age, expired));
            var r := SweepList(rest + done, age, stamp, expired, now, maxcount);
            r.out == Stamped(rest[..n], stamp, now) && r.list == rest[n..] + done + r.out
    decreases maxcount
  {
    hide SweepList, Stamped, ExpiredPrefix;
    ExpiredRound(rest, age, expired);
    SweepRound(rest + done, age, stamp, expired, now, maxcount);
    var n := Min(maxcount, ExpiredPrefix(rest, age, expired));
    if n == 0 {
      StampedNone(rest, stamp, now);
      SweepStops(rest, done, age, stamp, expired, now, maxcount);
    } else {
      var x := stamp(rest[0], now);
      StampedCons(rest, n, stamp, now);
      assert (rest + done)[0] == rest[0];
      if |rest + done| == 1 {
        assert rest == [rest[0]] && done == [];
        assert n == 1 && Stamped(rest[1..][..0], stamp, now) == [] && rest[1..] + done + [x] == [x];
      } else {
        SweepRotates(rest[1..], done + [x], age, stamp, expired, now, maxcount - 1);
        var out := SweepList(rest[1..] + (done + [x]), age, stamp, expired, now, maxcount - 1).out;
        SweepStep(rest, done, x, n, out);
      }
    }
  }

  lemma {:induction false} SweepStops<V>(rest: seq<V>, done: seq<V>, age: V -> nat, stamp: (V, nat) -> V,
                                         expired: int, now: nat, maxcount: nat)
    requires forall v :: v in done ==> age(v) > expired
    requires maxcount == 0 || ExpiredPrefix(rest, age, expired) == 0
    ensures SweepList(rest + done, age, stamp, expired, now, maxcount) == Swept(rest[0..] + done + [], [])
  {
    assert rest[0..] + done + [] == rest + done;
    if rest == [] && done != [] {
      assert (rest + done)[0] in done;
    }
  }

  lemma {:induction false} StampedCons<V>(rest: seq<V>, n: nat, stamp: (V, nat) -> V, now: nat)
    requires 0 < n <= |rest|
    ensures Stamped(rest[..n], stamp, now) == [stamp(rest[0], now)] + Stamped(rest[1..][..n - 1], stamp, now)
  {
  }

  lemma {:induction false} StampedNone<V>(rest: seq<V>, stamp: (V, nat) -> V, now: nat)
    ensures Stamped(rest[..0], stamp, now) == []
  {
  }

  lemma {:induction false} SweepStep<V>(rest: seq<V>, done: seq<V>, x: V, n: nat, out: seq<V>)
    requires 0 < n <= |rest|
    ensures (rest + done)[1..] + [x] == rest[1..] + (done + [x])
    ensures rest[1..][n - 1..] + (done + [x]) + out == rest[n..] + done + ([x] + out)
  {
  }

  /** A sweep keeps a list sorted, and unless it stopped at `maxcount` nothing expired is left. */
  lemma {:induction false} SweepKeepsSorted<V(!new)>(list: seq<V>, age: V -> nat, stamp: (V, nat) -> V, timeout: nat,
                                                     now: nat, maxcount: nat)
    requires Stamps(age, stamp) && 0 < timeout <= now
    requires Sorted(list, age) && forall v :: v in list ==> age(v) <= now
    ensures var r := SweepList(list, age, stamp, Sub64(now, timeout), now, maxcount);
            && Sorted(r.list, age)
            && (forall v :: v in r.list ==> age(v) <= now)
            && (|r.out| < maxcount ==> forall v :: v in r.list ==> age(v) > now - timeout)
  {
    SweepTakesExpiredPrefix(list, age, stamp, timeout, now, maxcount);
    var n := Min(maxcount, ExpiredPrefix(list, age, now - timeout));
    var r := SweepList(list, age, stamp, Sub64(now, timeout), now, maxcount);
    forall i | 0 <= i < |r.list|
      ensures i < |list| - n ==> r.list[i] == list[n + i]
      ensures i >= |list| - n ==> age(r.list[i]) == now
      ensures age(r.list[i]) <= now
      ensures |r.out| < maxcount ==> age(r.list[i]) > now - timeout
    {
      if i < |list| - n {
        assert list[n + i] in list;
        if |r.out| < maxcount && i > 0 {
          assert age(list[n]) <= age(list[n + i]);
        }
      }
    }
  }

  /** Before the clock has passed the timeout the 64-bit subtraction wraps, and whatever its age every
      record counts as expired: the sweep of a list of two or more goes round until the budget is used
      up, taking records more than once. */
  lemma {:induction false} EarlyClockSweepsAll<V(!new)>(list: seq<V>, age: V -> nat, stamp: (V, nat) -> V, timeout: nat,
                                                        now: nat, maxcount: nat)
    requires Stamps(age, stamp) && now < timeout <= TWO_TO_THE_64
    requires |list| >= 2 && forall v :: v in list ==> age(v) <= now
    ensures var r := SweepList(list, age, stamp, Sub64(now, timeout), now, maxcount);
            |r.out| == maxcount && |r.list| == |list|
    decreases maxcount
  {
    if maxcount > 0 {
      var x := stamp(list[0], now);
      assert age(x) == now;
      assert list[0] in list;
      EarlyClockSweepsAll(list[1..] + [x], age, stamp, timeout, now, maxcount - 1);
    }
  }
}
