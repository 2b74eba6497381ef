/**
  The part of the Kubernetes API server that the scaling code talks to. Every call is answered by an
  oracle, so a call may fail without effect, or take effect although the caller is told it failed.
*/
module Api {
  import opened Decimal

  datatype Verdict =
    | Done      // the call took effect and the caller knows it
    | Rejected  // the call failed without effect
    | Conflict  // the call failed without effect: what it wanted to write was based on an old version
    | Lost      // the call took effect but the caller sees an error

  /** What the server does with one call. A pending deletion may complete (`settled`) just before it. */
  datatype Reply = Reply(settled: bool, verdict: Verdict)

  /** The reply to the n-th call. */
  type Oracle = nat -> Reply

  /**
    The StatefulSet object. `capacity` is the storage request of its `persistence` claim template, 0 when
    there is no such template.
  */
  datatype Sts = Absent | Present(replicas: Count, capacity: int, terminating: bool)

  /** What the operator observed or changed, in order. */
  datatype Event =
    | SawAbsent
    | DeleteSent
    | Resized(name: string, from: int, to: int)
    | WroteReplicas(n: Count)
    | OthersWroteSts  // somebody else created or changed the StatefulSet

  datatype World = World(
    sts: Sts,
    pvcs: map<string, int>,
    annotations: map<string, string>,
    calls: nat,
    log: seq<Event>)

  predicate TookEffect(v: Verdict) {
    v == Done || v == Lost
  }

  function Settle(s: Sts, settled: bool): Sts {
    if settled && s.Present? && s.terminating then Absent else s
  }

  /** The world when the next call is answered, before the call's own effect. */
  function Answer(w: World, o: Oracle): World {
    w.(sts := Settle(w.sts, o(w.calls).settled), calls := w.calls + 1)
  }

  function VerdictOf(w: World, o: Oracle): Verdict {
    o(w.calls).verdict
  }

  /** The API server as the mutable object the operator's clients share. */
  class Server {
    const o: Oracle
    var sts: Sts
    var pvcs: map<string, int>
    var annotations: map<string, string>
    var calls: nat
    var log: seq<Event>

    constructor (o: Oracle, w: World)
      ensures this.o == o && View() == w
    {
      this.o := o;
      sts := w.sts;
      pvcs := w.pvcs;
      annotations := w.annotations;
      calls := w.calls;
      log := w.log;
    }

    function View(): World
      reads this
    {
      World(sts, pvcs, annotations, calls, log)
    }

    /** One round trip to the server. */
    method Call() returns (v: Verdict)
      modifies this
      ensures View() == Answer(old(View()), o)
      ensures v == VerdictOf(old(View()), o)
    {
      var reply := o(calls);
      sts := Settle(sts, reply.settled);
      calls := calls + 1;
      v := reply.verdict;
    }
  }
}
