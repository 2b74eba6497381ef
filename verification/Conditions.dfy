/** The status conditions of a cluster, and what their transition times mean. */
module Conditions {
  import opened Wrappers
  import opened Decimal

  datatype Kind = AllReplicasReady | ClusterAvailable | NoWarnings | ReconcileSuccess

  datatype State = Yes | No | Unknown

  datatype Condition = Condition(kind: Kind, state: State, lastTransition: int, reason: string, message: string)

  /** The child resources the conditions are computed from; Go passes typed nil pointers for missing ones. */
  datatype Resource =
    | NoStatefulSet
    | StatefulSet(replicas: Option<int>, ready: int, memoryLimit: int, memoryRequest: int)
    | NoEndpointSlice
    | EndpointSlice(addresses: seq<nat>)  // the number of addresses of each endpoint

  datatype Verdict = Verdict(state: State, reason: string, message: string)

  const INITIAL := Verdict(Unknown, "", "")

  // ---- The three computed conditions ----

  /** One resource: the verdict after it, and whether the loop is left. */
  function ReplicasStep(v: Verdict, r: Resource): (Verdict, bool) {
    match r
    case NoStatefulSet => (Verdict(Unknown, "MissingStatefulSet", "Could not find StatefulSet"), true)
    case StatefulSet(replicas, ready, _, _) =>
      var desired := if replicas.Some? then replicas.value else 1;
      if desired == 0 then (v.(state := No, reason := "ScaledToZero"), true)
      else if desired == ready then (v.(state := Yes, reason := "AllPodsAreReady"), true)
      else (Verdict(No, "NotAllPodsReady", Itoa(ready) + "/" + Itoa(desired) + " Pods ready"), false)
    case _ => (v, false)
  }

  function AvailableStep(v: Verdict, r: Resource): (Verdict, bool) {
    match r
    case NoEndpointSlice =>
      (Verdict(Unknown, "CouldNotRetrieveEndpoints", "Could not verify available service endpoints"), true)
    case EndpointSlice(addresses) =>
      if exists i :: 0 <= i < |addresses| && addresses[i] > 0 then
        (v.(state := Yes, reason := "AtLeastOneEndpointAvailable"), true)
      else (Verdict(No, "NoEndpointsAvailable", "The service has no endpoints available"), false)
    case _ => (v, false)
  }

  function WarningsStep(v: Verdict, r: Resource): (Verdict, bool) {
    match r
    case NoStatefulSet => (Verdict(Unknown, "MissingStatefulSet", "Could not find StatefulSet"), true)
    case StatefulSet(_, _, limit, request) =>
      if limit != 0 && request != 0 && limit != request then
        (Verdict(No, "MemoryRequestAndLimitDifferent",
                 "RabbitMQ container memory resource request and limit must be equal"), true)
      else (v.(state := Yes, reason := "NoWarnings"), false)
    case _ => (v, false)
  }

  function StepOf(kind: Kind, v: Verdict, r: Resource): (Verdict, bool) {
    match kind
    case AllReplicasReady => ReplicasStep(v, r)
    case ClusterAvailable => AvailableStep(v, r)
    case NoWarnings => WarningsStep(v, r)
    case ReconcileSuccess => (v, false)  // not computed from resources
  }

  function Judge(kind: Kind, v: Verdict, resources: seq<Resource>): Verdict
    decreases |resources|
  {
    if resources == [] then v
    else
      var (v', done) := StepOf(kind, v, resources[0]);
      if done then v' else Judge(kind, v', resources[1..])
  }

  lemma JudgeTwo(kind: Kind, a: Resource, b: Resource)
    ensures var (v, done) := StepOf(kind, INITIAL, a);
            Judge(kind, INITIAL, [a, b]) == if done then v else StepOf(kind, v, b).0
  {
    var v := StepOf(kind, INITIAL, a).0;
    assert [a, b][1..] == [b] && [b][1..] == [];
    assert Judge(kind, v, [b]) == StepOf(kind, v, b).0;
  }

  /** The resources the operator computes the conditions from. */
  predicate Typed(sts: Resource, slice: Resource) {
    (sts.NoStatefulSet? || sts.StatefulSet?) && (slice.NoEndpointSlice? || slice.EndpointSlice?)
  }

  /** All replicas are ready: the StatefulSet exists, wants some, and has as many ready ones as it wants. */
  lemma ReadyMeans(sts: Resource, slice: Resource)
    requires Typed(sts, slice)
    ensures var v := Judge(AllReplicasReady, INITIAL, [sts, slice]);
            && (v.state == Unknown <==> sts.NoStatefulSet?)
            && (v.state == Yes <==>
                  sts.StatefulSet? && sts.replicas != Some(0) &&
                  sts.ready == (if sts.replicas.Some? then sts.replicas.value else 1))
  {
    JudgeTwo(AllReplicasReady, sts, slice);
  }

  /** The reason and the message go with the state. */
  lemma ReadyReason(sts: Resource, slice: Resource)
    requires Typed(sts, slice)
    ensures var v := Judge(AllReplicasReady, INITIAL, [sts, slice]);
            && (v.state == Unknown ==> v.reason == "MissingStatefulSet" && v.message == "Could not find StatefulSet")
            && (v.state == Yes ==> v.reason == "AllPodsAreReady" && v.message == "")
            && (v.state == No ==>
                  && sts.StatefulSet?
                  && var wanted := if sts.replicas.Some? then sts.replicas.value else 1;
                     if wanted == 0 then v.reason == "ScaledToZero" && v.message == ""
                     else
                       && v.reason == "NotAllPodsReady"
                       && v.message == Itoa(sts.ready) + "/" + Itoa(wanted) + " Pods ready")
  {
    JudgeTwo(AllReplicasReady, sts, slice);
  }

  /** The cluster is available: some endpoint has an address. */
  lemma AvailableMeans(sts: Resource, slice: Resource)
    requires Typed(sts, slice)
    ensures var v := Judge(ClusterAvailable, INITIAL, [sts, slice]);
            && (v.state == Unknown <==> slice.NoEndpointSlice?)
            && (v.state == Yes <==>
                  slice.EndpointSlice? && exists i :: 0 <= i < |slice.addresses| && slice.addresses[i] > 0)
  {
    JudgeTwo(ClusterAvailable, sts, slice);
  }

  lemma AvailableReason(sts: Resource, slice: Resource)
    requires Typed(sts, slice)
    ensures var v := Judge(ClusterAvailable, INITIAL, [sts, slice]);
            && v.reason == (match v.state
                            case Unknown => "CouldNotRetrieveEndpoints"
                            case Yes => "AtLeastOneEndpointAvailable"
                            case No => "NoEndpointsAvailable")
            && v.message == (match v.state
                             case Unknown => "Could not verify available service endpoints"
                             case Yes => ""
                             case No => "The service has no endpoints available")
  {
    JudgeTwo(ClusterAvailable, sts, slice);
  }

  /** There is a warning: memory limit and request are both set and differ. */
  lemma WarningMeans(sts: Resource, slice: Resource)
    requires Typed(sts, slice)
    ensures var v := Judge(NoWarnings, INITIAL, [sts, slice]);
            && (v.state == Unknown <==> sts.NoStatefulSet?)
            && (v.state == No <==>
                  sts.StatefulSet? && sts.memoryLimit != 0 && sts.memoryRequest != 0 &&
                  sts.memoryLimit != sts.memoryRequest)
  {
    JudgeTwo(NoWarnings, sts, slice);
  }

  lemma WarningReason(sts: Resource, slice: Resource)
    requires Typed(sts, slice)
    ensures var v := Judge(NoWarnings, INITIAL, [sts, slice]);
            && v.reason == (match v.state
                            case Unknown => "MissingStatefulSet"
                            case Yes => "NoWarnings"
                            case No => "MemoryRequestAndLimitDifferent")
            && v.message == (match v.state
                             case Unknown => "Could not find StatefulSet"
                             case Yes => ""
                             case No => "RabbitMQ container memory resource request and limit must be equal")
  {
    JudgeTwo(NoWarnings, sts, slice);
  }

  /** A condition with the given verdict: its transition time is new only if there was no such state before. */
  function Stamp(kind: Kind, v: Verdict, previous: Option<Condition>, now: int): Condition {
    Condition(kind, v.state,
              if previous.None? || previous.value.state != v.state then now else previous.value.lastTransition,
              v.reason, v.message)
  }

  /** The loop that computes one of the three conditions. */
  method Compute(kind: Kind, resources: seq<Resource>, previous: Option<Condition>, now: int) returns (c: Condition)
    ensures c == Stamp(kind, Judge(kind, INITIAL, resources), previous, now)
  {
    c := Condition(kind, Unknown, if previous.Some? then previous.value.lastTransition else 0, "", "");
    for i := 0 to |resources|
      invariant c.kind == kind && c.lastTransition == (if previous.Some? then previous.value.lastTransition else 0)
      invariant Judge(kind, Verdict(c.state, c.reason, c.message), resources[i..]) == Judge(kind, INITIAL, resources)
    {
      assert resources[i..][1..] == resources[i + 1..];
      var (v, done) := StepOf(kind, Verdict(c.state, c.reason, c.message), resources[i]);
      c := c.(state := v.state, reason := v.reason, message := v.message);
      if done {
        break;
      }
    }
    if previous.None? || previous.value.state != c.state {
      c := c.(lastTransition := now);
    }
  }

  // ---- The list of conditions ----

  /** The last condition of a kind. */
  function Find(conditions: seq<Condition>, kind: Kind): Option<Condition> {
    if conditions == [] then None
    else
      var last := conditions[|conditions| - 1];
      if last.kind == kind then Some(last) else Find(conditions[..|conditions| - 1], kind)
  }

  function SetAll(conditions: seq<Condition>, resources: seq<Resource>, now: int): seq<Condition> {
    var computed := (k: Kind) => Stamp(k, Judge(k, INITIAL, resources), Find(conditions, k), now);
    var reconcile := Find(conditions, ReconcileSuccess);
    [computed(AllReplicasReady), computed(ClusterAvailable), computed(NoWarnings),
     if reconcile.Some? then reconcile.value else Condition(ReconcileSuccess, Unknown, now, "Initialising", "")]
  }

  function Updated(c: Condition, v: Verdict, now: int): Condition {
    Condition(c.kind, v.state, if c.state != v.state then now else c.lastTransition, v.reason, v.message)
  }

  /** Updates the first condition of the kind, if there is one. */
  function SetOne(conditions: seq<Condition>, kind: Kind, v: Verdict, now: int): seq<Condition> {
    if conditions == [] then []
    else if conditions[0].kind == kind then [Updated(conditions[0], v, now)] + conditions[1..]
    else [conditions[0]] + SetOne(conditions[1..], kind, v, now)
  }

  /** The first condition of the kind is at `i`, or there is none. */
  lemma {:induction false} SetOneAt(conditions: seq<Condition>, i: nat, kind: Kind, v: Verdict, now: int)
    requires i <= |conditions| && forall j :: 0 <= j < i ==> conditions[j].kind != kind
    requires i < |conditions| ==> conditions[i].kind == kind
    ensures SetOne(conditions, kind, v, now) ==
            if i < |conditions| then conditions[i := Updated(conditions[i], v, now)] else conditions
    decreases |conditions|
  {
    if i > 0 {
      SetOneAt(conditions[1..], i - 1, kind, v, now);
    }
  }

  class ClusterStatus {
    var conditions: seq<Condition>

    constructor ()
      ensures conditions == []
    {
      conditions := [];
    }

    method SetConditions(resources: seq<Resource>, now: int)
      modifies this
      ensures conditions == SetAll(old(conditions), resources, now)
    {
      var ready, available, warnings, reconcile: Option<Condition> := None, None, None, None;
      for i := 0 to |conditions|
        invariant ready == Find(conditions[..i], AllReplicasReady)
        invariant available == Find(conditions[..i], ClusterAvailable)
        invariant warnings == Find(conditions[..i], NoWarnings) && reconcile == Find(conditions[..i], ReconcileSuccess)
      {
        assert conditions[..i + 1][..i] == conditions[..i];
        match conditions[i].kind {
          case AllReplicasReady => ready := Some(conditions[i]);
          case ClusterAvailable => available := Some(conditions[i]);
          case NoWarnings => warnings := Some(conditions[i]);
          case ReconcileSuccess => reconcile := Some(conditions[i]);
        }
      }
      assert conditions[..|conditions|] == conditions;
      var c1 := Compute(AllReplicasReady, resources, ready, now);
      var c2 := Compute(ClusterAvailable, resources, available, now);
      var c3 := Compute(NoWarnings, resources, warnings, now);
      var c4 :=
        if reconcile.Some? then reconcile.value else Condition(ReconcileSuccess, Unknown, now, "Initialising", "");
      conditions := [c1, c2, c3, c4];
    }

    method SetCondition(kind: Kind, v: Verdict, now: int)
      modifies this
      ensures conditions == SetOne(old(conditions), kind, v, now)
    {
      for i := 0 to |conditions|
        invariant conditions == old(conditions)
        invariant forall j :: 0 <= j < i ==> conditions[j].kind != kind
      {
        if conditions[i].kind == kind {
          var c := conditions[i];
          if c.state != v.state {
            c := c.(lastTransition := now);
          }
          c := c.(state := v.state, reason := v.reason, message := v.message);
          SetOneAt(conditions, i, kind, v, now);
          conditions := conditions[i := c];
          return;
        }
      }
      SetOneAt(conditions, |conditions|, kind, v, now);
    }
  }

  // ---- The timeline ----

  datatype Call =
    | ComputeAll(now: int, resources: seq<Resource>)
    | ChangeOne(now: int, kind: Kind, verdict: Verdict)

  function Apply(conditions: seq<Condition>, c: Call): seq<Condition> {
    match c
    case ComputeAll(now, resources) => SetAll(conditions, resources, now)
    case ChangeOne(now, kind, verdict) => SetOne(conditions, kind, verdict, now)
  }

  function Run(calls: seq<Call>): seq<Condition> {
    if calls == [] then [] else Apply(Run(calls[..|calls| - 1]), calls[|calls| - 1])
  }

  const KINDS: seq<Kind> := [AllReplicasReady, ClusterAvailable, NoWarnings, ReconcileSuccess]

  /** Where a condition stands in the list. */
  function Place(kind: Kind): nat {
    match kind case AllReplicasReady => 0 case ClusterAvailable => 1 case NoWarnings => 2 case ReconcileSuccess => 3
  }

  predicate FourInOrder(conditions: seq<Condition>) {
    |conditions| == 4 && forall i :: 0 <= i < 4 ==> conditions[i].kind == KINDS[i]
  }

  /** The state of a condition as seen after a call. */
  datatype Sample = Sample(time: int, state: State)

  /** What an observer sees of one condition after every call since it exists. */
  function Observed(calls: seq<Call>, kind: Kind): seq<Sample> {
    if calls == [] then []
    else
      var conditions := Run(calls);
      Observed(calls[..|calls| - 1], kind) +
      if |conditions| == 4 then [Sample(calls[|calls| - 1].now, conditions[Place(kind)].state)] else []
  }

  /** The time of the most recent change of state an observer saw, or of the first observation. */
  function LastChange(samples: seq<Sample>): int
    requires samples != []
  {
    var n := |samples| - 1;
    if n == 0 || samples[n].state != samples[n - 1].state then samples[n].time else LastChange(samples[..n])
  }

  predicate DistinctKinds(conditions: seq<Condition>) {
    forall i, j :: 0 <= i < j < |conditions| ==> conditions[i].kind != conditions[j].kind
  }

  lemma {:induction false} FindUnique(conditions: seq<Condition>, i: nat)
    requires DistinctKinds(conditions) && i < |conditions|
    ensures Find(conditions, conditions[i].kind) == Some(conditions[i])
    decreases |conditions|
  {
    var n := |conditions| - 1;
    if i < n {
      FindUnique(conditions[..n], i);
    }
  }

  lemma FindInOrder(conditions: seq<Condition>, kind: Kind)
    requires FourInOrder(conditions)
    ensures Find(conditions, kind) == Some(conditions[Place(kind)])
  {
    FindUnique(conditions, Place(kind));
  }

  lemma SetOneInOrder(conditions: seq<Condition>, kind: Kind, v: Verdict, now: int)
    requires FourInOrder(conditions)
    ensures SetOne(conditions, kind, v, now) == conditions[Place(kind) := Updated(conditions[Place(kind)], v, now)]
  {
    SetOneAt(conditions, Place(kind), kind, v, now);
  }

  /** Setting one condition gives it the new state, reason and message, and leaves the others alone. */
  lemma SetOneSets(before: seq<Condition>, kind: Kind, v: Verdict, now: int, k: Kind)
    requires FourInOrder(before)
    ensures var after := SetOne(before, kind, v, now);
            && FourInOrder(after)
            && if k != kind then after[Place(k)] == before[Place(k)]
               else
                 var c := after[Place(k)];
                 c.state == v.state && c.reason == v.reason && c.message == v.message
  {
    SetOneInOrder(before, kind, v, now);
  }

  /** The condition says what was judged. */
  predicate Says(c: Condition, v: Verdict) {
    c.state == v.state && c.reason == v.reason && c.message == v.message
  }

  /** Computing the conditions makes the first three say what was judged, and keeps or creates the fourth. */
  lemma SetAllSays(before: seq<Condition>, resources: seq<Resource>, now: int)
    requires before == [] || FourInOrder(before)
    ensures var after := SetAll(before, resources, now);
            && FourInOrder(after)
            && Says(after[0], Judge(AllReplicasReady, INITIAL, resources))
            && Says(after[1], Judge(ClusterAvailable, INITIAL, resources))
            && Says(after[2], Judge(NoWarnings, INITIAL, resources))
            && after[3] == if before == [] then Condition(ReconcileSuccess, Unknown, now, "Initialising", "")
                           else before[3]
  {
    if before != [] {
      FindInOrder(before, ReconcileSuccess);
    }
  }

  /** The first three conditions have the states the resources call for; the fourth is not touched. */
  lemma SetAllSets(before: seq<Condition>, sts: Resource, slice: Resource, now: int)
    requires (before == [] || FourInOrder(before)) && Typed(sts, slice)
    ensures var after := SetAll(before, [sts, slice], now);
            && |after| == 4
            && (after[0].state == Unknown <==> sts.NoStatefulSet?)
            && (after[0].state == Yes <==>
                  sts.StatefulSet? && sts.replicas != Some(0) &&
                  sts.ready == (if sts.replicas.Some? then sts.replicas.value else 1))
            && (after[1].state == Unknown <==> slice.NoEndpointSlice?)
            && (after[1].state == Yes <==>
                  slice.EndpointSlice? && exists i :: 0 <= i < |slice.addresses| && slice.addresses[i] > 0)
            && (after[2].state == Unknown <==> sts.NoStatefulSet?)
            && (after[2].state == No <==>
                  sts.StatefulSet? && sts.memoryLimit != 0 && sts.memoryRequest != 0 &&
                  sts.memoryLimit != sts.memoryRequest)
            && (before != [] ==> after[3] == before[3])
  {
    SetAllSays(before, [sts, slice], now);
    ReadyMeans(sts, slice);
    AvailableMeans(sts, slice);
    WarningMeans(sts, slice);
  }

  lemma CallKeepsFour(before: seq<Condition>, c: Call)
    requires before == [] || FourInOrder(before)
    ensures var after := Apply(before, c);
            (after == [] || FourInOrder(after)) && (after != [] <==> before != [] || c.ComputeAll?)
  {
    match c
    case ComputeAll(now, resources) => SetAllSays(before, resources, now);
    case ChangeOne(now, kind, v) =>
      if before != [] {
        SetOneSets(before, kind, v, now, kind);
      }
  }

  /** Every later call keeps the four conditions in place; the first computation creates them. */
  lemma {:induction false} AlwaysFour(calls: seq<Call>)
    ensures Run(calls) == [] || FourInOrder(Run(calls))
    ensures Run(calls) != [] <==> exists i :: 0 <= i < |calls| && calls[i].ComputeAll?
    decreases |calls|
  {
    if calls != [] {
      var n := |calls| - 1;
      AlwaysFour(calls[..n]);
      CallKeepsFour(Run(calls[..n]), calls[n]);
      if i :| 0 <= i < |calls| && calls[i].ComputeAll? {
        if i < n {
          assert calls[..n][i].ComputeAll?;
        }
      }
    }
  }

  /** One call, seen from one condition: the transition time changes exactly when the state does. */
  lemma OneCall(before: seq<Condition>, c: Call, kind: Kind)
    requires FourInOrder(before)
    ensures var after := Apply(before, c);
            && FourInOrder(after)
            && var previous, next := before[Place(kind)], after[Place(kind)];
               next.lastTransition == if next.state != previous.state then c.now else previous.lastTransition
  {
    match c
    case ComputeAll(now, resources) =>
      FindInOrder(before, kind);
      FindInOrder(before, ReconcileSuccess);
    case ChangeOne(now, k, v) => SetOneInOrder(before, k, v, now);
  }

  lemma FirstComputation(c: Call, kind: Kind)
    requires c.ComputeAll?
    ensures FourInOrder(Apply([], c)) && Apply([], c)[Place(kind)].lastTransition == c.now
  {
  }

  /**
    After any series of calls there are no conditions or exactly four, in fixed order, and each one's transition time
    is the time of the last change of its state that an observer could see, or of its creation.
  */
  lemma {:induction false} TransitionTimesAreTrue(calls: seq<Call>, kind: Kind)
    ensures var conditions := Run(calls);
            && (conditions == [] <==> Observed(calls, kind) == [])
            && (conditions != [] ==>
                  && FourInOrder(conditions) && Observed(calls, kind) != []
                  && Observed(calls, kind)[|Observed(calls, kind)| - 1].state == conditions[Place(kind)].state
                  && conditions[Place(kind)].lastTransition == LastChange(Observed(calls, kind)))
    decreases |calls|
  {
    if calls != [] {
      var n := |calls| - 1;
      var earlier, c := calls[..n], calls[n];
      var before, after := Run(earlier), Run(calls);
      TransitionTimesAreTrue(earlier, kind);
      if before == [] {
        if c.ComputeAll? {
          FirstComputation(c, kind);
        }
      } else {
        OneCall(before, c, kind);
        var seen, now := Observed(earlier, kind), Observed(calls, kind);
        assert now == seen + [Sample(c.now, after[Place(kind)].state)];
        assert now[..|seen|] == seen;
      }
    }
  }
}
