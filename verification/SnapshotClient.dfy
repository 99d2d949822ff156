/** The snapshot client: an actor that runs a worker and tells its caller how it ended. */
module SnapshotClient {
  import opened ReaderSpec
  import opened SnapshotClientWorker

  /** A signal carries one byte. */
  function Signal(err: int): nat {
    err % 256
  }

  function Signals(results: seq<int>): (r: seq<nat>)
    ensures |r| == |results|
  {
    seq(|results|, i requires 0 <= i < |results| => Signal(results[i]))
  }

  /** What the actor sends on its pipe: that it is there, and how it ended.  A worker that does not
      start ends it with 0. */
  function PipeSignals(connected: bool, results: seq<int>): seq<nat> {
    [0] + if connected then Signals(results) else [0]
  }

  /** The actor: `connected` says whether connecting and sending the request worked, `events` is what
      the loop delivers to the worker. */
  method Run(worker: SnapshotClientWorker, connected: bool, events: seq<Event>) returns (signals: seq<nat>)
    requires worker.State() == Reader(Inactive, "", [], 0, [])
    modifies worker
    ensures !connected ==> worker.calls == [] && signals == PipeSignals(false, [])
    ensures connected ==>
              && worker.State() == ReactAll(worker.builder, StartedReader([]), events)
              && signals == PipeSignals(true, worker.completed)
  {
    signals := [0];
    var started := worker.Start(connected);
    if started == -1 {
      signals := signals + [0];
      return;
    }
    var i := 0;
    while i < |events|
      invariant i <= |events|
      invariant worker.State() == ReactAll(worker.builder, StartedReader([]), events[..i])
      invariant signals == [0] + Signals(worker.completed)
    {
      assert events[..i + 1][..i] == events[..i];
      var reported := |worker.completed|;
      match events[i] {
        case Recv(msg, now) => worker.OnReadable(msg, now);
        case Timeout =>
          if worker.IsActive() {
            worker.OnTimeoutTimer();
          }
      }
      if reported < |worker.completed| {
        signals := signals + [Signal(worker.completed[reported])];
      }
      i := i + 1;
    }
    assert events[..|events|] == events;
  }

  /** The caller's side. */
  class SnapshotClient {
    var actor: bool
    var address: string
    var completed: seq<nat>

    predicate Runs(a: string)
      reads this
    {
      actor && address == a
    }

    constructor ()
      ensures !actor && address == "" && completed == []
    {
      actor, address, completed := false, "", [];
    }

    method Start(address: string) returns (result: int)
      modifies this
      ensures result == if old(actor) then -1 else 0
      ensures if old(actor) then unchanged(this) else Runs(address) && completed == old(completed)
    {
      if actor {
        return -1;
      }
      actor, this.address := true, address;
      return 0;
    }

    method Stop()
      modifies this
      ensures !actor && address == "" && completed == old(completed)
    {
      actor, address := false, "";
    }

    /** Whatever the actor signals is handed on as the result. */
    method OnCallerPipeReadable(status: nat)
      modifies this
      ensures !actor && completed == old(completed) + [status]
    {
      Stop();
      completed := completed + [status];
    }
  }

  /** After the first signal, which only says that the actor is there, one more comes exactly if the
      worker has reported or did not start.  It is 0 exactly if the worker reported 0 or did not start. */
  lemma {:induction false} ReportedSuccess(b: Builder, connected: bool, events: seq<Event>)
    ensures var r := ReactAll(b, StartedReader([]), events);
            var signals := PipeSignals(connected, r.completed);
            && 1 <= |signals| <= 2 && signals[0] == 0
            && (|signals| == 2 <==> !connected || r.completed != [])
            && (|signals| == 2 ==>
                  && (signals[1] == 0 <==> r.completed == [0] || !connected)
                  && (signals[1] == 0 || signals[1] == 255))
  {
    CompletesAtMostOnce(b, [], events, []);
    ResultsAre(b, events);
    var results := ReactAll(b, StartedReader([]), events).completed;
    if |results| == 1 {
      assert results[0] in results && results == [results[0]];
    }
  }

  lemma {:induction false} ResultsAre(b: Builder, events: seq<Event>)
    ensures forall x :: x in ReactAll(b, StartedReader([]), events).completed ==> x == 0 || x == -1
  {
    if events != [] {
      ResultsAre(b, events[..|events| - 1]);
    }
  }
}
