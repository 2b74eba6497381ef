/**
  The StatefulSet part of a reconcile step: the scale-down guard, scaling to zero with a saved count,
  restoring from zero, claim expansion, and the final write of the StatefulSet.
*/
module ReplicaScaling {
  import opened Wrappers
  import opened Decimal
  import opened Api
  import opened PersistenceScaling

  const BEFORE_ZERO: string := "rabbitmq.com/before-zero-replicas-configured"

  /** The fields of the RabbitmqCluster spec that decide the size of the StatefulSet and of its claims. */
  datatype Spec = Spec(replicas: Count, override: Option<Count>, storage: int)

  function Desired(spec: Spec): Count {
    if spec.override.Some? then spec.override.value else spec.replicas
  }

  predicate ScaleToZero(current: Count, desired: Count) {
    desired == 0 && current > 0
  }

  predicate ScaleFromZero(current: Count, desired: Count) {
    current == 0 && desired > 0
  }

  /** Restoring is refused when the saved count cannot be read or differs from the desired one. */
  predicate RestoreRefused(annotations: map<string, string>, desired: Count) {
    BEFORE_ZERO in annotations && ParseInt32(annotations[BEFORE_ZERO]) != Some(desired)
  }

  /** What a step sees when it decides: copies of the StatefulSet and of the cluster's annotations. */
  datatype Seen = Seen(sts: Sts, annotations: map<string, string>)

  /** Reads come from a cache, which may lag behind: `seen` is what it holds then, None if it is up to date. */
  function View(w: World, seen: Option<Seen>): Seen {
    if seen.Some? then seen.value else Seen(w.sts, w.annotations)
  }

  /** What a step does before claim expansion and the write. */
  datatype Plan =
    | Stop               // the request is refused
    | Save(count: Count) // scaling to zero: the count is saved in the annotation
    | Drop               // restoring from zero: the saved count is removed
    | Go

  function Decide(view: Seen, desired: Count): Plan {
    if view.sts.Absent? then Go
    else
      var current := view.sts.replicas;
      if ScaleToZero(current, desired) then Save(current)
      else if current > desired then Stop
      else if !ScaleFromZero(current, desired) then Go
      else if RestoreRefused(view.annotations, desired) then Stop
      else if BEFORE_ZERO in view.annotations then Drop
      else Go
  }

  /** The annotations after the plan. Removal writes the copy that was read, so it meets a conflict if that is old. */
  function Annotated(annotations: map<string, string>, view: Seen, plan: Plan): map<string, string> {
    match plan
    case Save(count) => annotations[BEFORE_ZERO := Itoa(count)]
    case Drop => if view.annotations == annotations then annotations - {BEFORE_ZERO} else annotations
    case _ => annotations
  }

  /** Saving the count reads the cluster again into the same object, so from then on the step uses that spec. */
  function SpecUsed(plan: Plan, spec: Spec, refreshed: Spec): Spec {
    if plan.Save? then refreshed else spec
  }

  datatype Ending = Refused | Failed | Finished

  /** A step's result: the new world, how it ended, and whether the StatefulSet was written. */
  datatype Outcome = Outcome(world: World, ending: Ending, landed: bool)

  const WRITE_ATTEMPTS: nat := 5  // retry.DefaultRetry

  function Put(w: World, sts: Sts): World
    requires sts.Present?
  {
    w.(sts := sts, log := w.log + [WroteReplicas(sts.replicas)])
  }

  /**
    `CreateOrUpdate` of the StatefulSet, tried again while the update meets a conflict; `built` is the storage its
    claim template was built with. An object that an earlier attempt read has a version and cannot be created. The
    claim template of a StatefulSet cannot be changed, so an update that tries is rejected.
  */
  function WriteSts(w: World, o: Oracle, spec: Spec, built: int, attempt: nat): (World, Verdict)
    decreases WRITE_ATTEMPTS - attempt
  {
    var w1 := Answer(w, o);
    var w2 := Answer(w1, o);
    var v := VerdictOf(w1, o);
    if VerdictOf(w, o) != Done then (w1, Rejected)
    else if w1.sts.Absent? then
      if attempt > 0 || !TookEffect(v) then (w2, Rejected)
      else (Put(w2, Present(Desired(spec), if built == 0 then 0 else spec.storage, false)), v)
    else if w2.sts.Absent? then (w2, Rejected)
    else if v == Conflict && attempt + 1 < WRITE_ATTEMPTS then WriteSts(w2, o, spec, built, attempt + 1)
    else if !TookEffect(v) || ChangesTemplate(w2.sts, spec) then (w2, Rejected)
    else (Put(w2, w2.sts.(replicas := Desired(spec))), v)
  }

  /** The update asks for another size of the claims than the StatefulSet was created with. */
  predicate ChangesTemplate(sts: Sts, spec: Spec) {
    sts.Present? && sts.capacity != 0 && sts.capacity != spec.storage
  }

  /** Claim expansion and the final write. */
  function Finish(w: World, o: Oracle, cluster: string, spec: Spec, built: int): Outcome {
    var (w1, err) := Scale(w, o, cluster, Some(spec.replicas), built);
    if err.Some? then Outcome(w1, Failed, false)
    else
      var (w2, v) := WriteSts(w1, o, spec, built, 0);
      Outcome(w2, if v == Done then Finished else Failed, TookEffect(v))
  }

  /** One reconcile step. `spec` is what the step read at its start, `refreshed` what saving the count reads. */
  function Reconcile(
    w: World, o: Oracle, cluster: string, spec: Spec, refreshed: Spec, seen: Option<Seen>): Outcome
  {
    var w1 := Answer(w, o);
    if VerdictOf(w, o) != Done then Outcome(w1, Failed, false)
    else
      var view := View(w1, seen);
      var plan := Decide(view, Desired(spec));
      match plan
      case Stop => Outcome(w1, Refused, false)
      case Go => Finish(w1, o, cluster, spec, spec.storage)
      case _ =>
        var w2 := Answer(w1, o);
        var v := VerdictOf(w1, o);
        var w3 := if TookEffect(v) then w2.(annotations := Annotated(w2.annotations, view, plan)) else w2;
        if plan.Save? && v != Done then Outcome(w3, Failed, false)  // an error of the removal is ignored
        else Finish(w3, o, cluster, SpecUsed(plan, spec, refreshed), spec.storage)
  }

  // ---- The invariant ----

  /** The last nonzero replica count the operator wrote, 0 before the first. */
  function LastNonzero(log: seq<Event>): Count
    decreases |log|
  {
    if log == [] then 0
    else
      var last := log[|log| - 1];
      if last.WroteReplicas? && last.n > 0 then last.n else LastNonzero(log[..|log| - 1])
  }

  /** The nonzero replica counts written never decrease. */
  ghost predicate NeverShrank(log: seq<Event>) {
    forall i, j :: 0 <= i < j < |log| && log[i].WroteReplicas? && log[j].WroteReplicas? && log[j].n > 0 ==>
      log[i].n <= log[j].n
  }

  predicate Saved(annotations: map<string, string>, n: Count) {
    BEFORE_ZERO in annotations && ParseInt32(annotations[BEFORE_ZERO]) == Some(n)
  }

  /**
    A running StatefulSet has the last nonzero count that was written; one that was scaled to zero has it in the
    annotation.
  */
  ghost predicate Linked(w: World) {
    var last := LastNonzero(w.log);
    && (w.sts.Present? && w.sts.replicas > 0 ==> w.sts.replicas == last)
    && (w.sts.Present? && w.sts.replicas == 0 && last > 0 ==> Saved(w.annotations, last))
  }

  ghost predicate Good(w: World) {
    Linked(w) && NeverShrank(w.log)
  }

  // ---- One step ----

  lemma {:induction false} LastNonzeroIgnores(log: seq<Event>, ext: seq<Event>)
    requires forall e :: e in ext ==> !e.WroteReplicas?
    ensures LastNonzero(log + ext) == LastNonzero(log)
    decreases |ext|
  {
    if ext == [] {
      assert log + ext == log;
    } else {
      var front := ext[..|ext| - 1];
      assert (log + ext)[..|log + ext| - 1] == log + front;
      LastNonzeroIgnores(log, front);
    }
  }

  lemma {:induction false} LastNonzeroWritten(log: seq<Event>)
    ensures LastNonzero(log) > 0 ==> WroteReplicas(LastNonzero(log)) in log
    decreases |log|
  {
    if log != [] {
      LastNonzeroWritten(log[..|log| - 1]);
    }
  }

  lemma {:induction false} LastNonzeroBounds(log: seq<Event>)
    requires NeverShrank(log)
    ensures forall i :: 0 <= i < |log| && log[i].WroteReplicas? ==> log[i].n <= LastNonzero(log)
    decreases |log|
  {
    if log != [] {
      LastNonzeroBounds(log[..|log| - 1]);
    }
  }

  /** Writing a count keeps the history non-decreasing exactly when the count is zero or at least the last one. */
  lemma WriteExtends(log: seq<Event>, n: Count)
    requires NeverShrank(log)
    ensures LastNonzero(log + [WroteReplicas(n)]) == if n > 0 then n else LastNonzero(log)
    ensures NeverShrank(log + [WroteReplicas(n)]) <==> n == 0 || LastNonzero(log) <= n
  {
    var log' := log + [WroteReplicas(n)];
    assert log'[..|log|] == log;
    LastNonzeroBounds(log);
    LastNonzeroWritten(log);
    if n > 0 && n < LastNonzero(log) {
      var i :| 0 <= i < |log| && log[i] == WroteReplicas(LastNonzero(log));
      assert log'[i] == log[i] && log'[|log|] == WroteReplicas(n);
    }
  }

  /** Claim expansion leaves the history of counts, the annotations and the StatefulSet's count alone. */
  lemma ScaleKeepsHistory(w: World, o: Oracle, cluster: string, replicas: Option<int>, desired: int)
    requires NeverShrank(w.log)
    ensures var w' := Scale(w, o, cluster, replicas, desired).0;
            && LastNonzero(w'.log) == LastNonzero(w.log) && NeverShrank(w'.log)
            && w'.annotations == w.annotations && SameOrGoing(w.sts, w'.sts)
  {
    ScaleIsGuaranteed(w, o, cluster, replicas, desired);
    var w' := Scale(w, o, cluster, replicas, desired).0;
    var ext := w'.log[|w.log|..];
    assert w'.log == w.log + ext;
    LastNonzeroIgnores(w.log, ext);
  }

  /** What claim expansion and the write, started in `w`, have done when the outcome is `r`. */
  ghost predicate Wrote(w: World, n: Count, r: Outcome) {
    var last := LastNonzero(w.log);
    && r.world.annotations == w.annotations
    && (r.landed ==>
          && r.world.sts.Present? && r.world.sts.replicas == n
          && LastNonzero(r.world.log) == (if n > 0 then n else last)
          && (NeverShrank(r.world.log) <==> n == 0 || last <= n))
    && (!r.landed ==>
          SameOrGoing(w.sts, r.world.sts) && LastNonzero(r.world.log) == last && NeverShrank(r.world.log))
  }

  /** The write either puts the desired count, once, or leaves the StatefulSet alone. */
  lemma {:induction false} WriteStsPuts(w: World, o: Oracle, spec: Spec, built: int, attempt: nat)
    ensures var (w', v) := WriteSts(w, o, spec, built, attempt);
            && w'.pvcs == w.pvcs && w'.annotations == w.annotations
            && (!TookEffect(v) ==> SameOrGoing(w.sts, w'.sts) && w'.log == w.log)
            && (TookEffect(v) ==>
                  && w'.sts.Present? && w'.sts.replicas == Desired(spec)
                  && w'.log == w.log + [WroteReplicas(Desired(spec))]
                  && (|| w'.sts.capacity == (if built == 0 then 0 else spec.storage)
                      || (w.sts.Present? && w'.sts.capacity == w.sts.capacity && !ChangesTemplate(w.sts, spec))))
    decreases WRITE_ATTEMPTS - attempt
  {
    var w1 := Answer(w, o);
    var w2 := Answer(w1, o);
    if VerdictOf(w1, o) == Conflict && attempt + 1 < WRITE_ATTEMPTS {
      WriteStsPuts(w2, o, spec, built, attempt + 1);
    }
  }

  /** The write, from the world `w1` that claim expansion left. */
  lemma WriteFrom(w: World, w1: World, o: Oracle, spec: Spec, built: int, r: Outcome)
    requires NeverShrank(w1.log) && LastNonzero(w1.log) == LastNonzero(w.log)
    requires w1.annotations == w.annotations && SameOrGoing(w.sts, w1.sts)
    requires var (w2, v) := WriteSts(w1, o, spec, built, 0); r.world == w2 && r.landed == TookEffect(v)
    ensures Wrote(w, Desired(spec), r)
  {
    WriteStsPuts(w1, o, spec, built, 0);
    WriteExtends(w1.log, Desired(spec));
  }

  lemma FinishWrites(w: World, o: Oracle, cluster: string, spec: Spec, built: int)
    requires NeverShrank(w.log)
    ensures Wrote(w, Desired(spec), Finish(w, o, cluster, spec, built))
  {
    ScaleKeepsHistory(w, o, cluster, Some(spec.replicas), built);
    var (w1, err) := Scale(w, o, cluster, Some(spec.replicas), built);
    if err.None? {
      WriteFrom(w, w1, o, spec, built, Finish(w, o, cluster, spec, built));
    }
  }

  /** Writing `n` neither shrinks the cluster nor, at zero, forgets how many nodes it had. */
  predicate Keeps(last: Count, annotations: map<string, string>, n: Count) {
    if n > 0 then last <= n else last == 0 || Saved(annotations, last)
  }

  /** A StatefulSet that stays at zero has its last count in the annotation. */
  predicate Remembers(sts: Sts, last: Count, annotations: map<string, string>) {
    sts.Present? && sts.replicas == 0 && last > 0 ==> Saved(annotations, last)
  }

  /** Claim expansion and the write end well exactly when what they write, or leave, does. */
  lemma FinishIsGoodIff(w: World, o: Oracle, cluster: string, spec: Spec, built: int)
    requires NeverShrank(w.log) && (w.sts.Present? && w.sts.replicas > 0 ==> w.sts.replicas == LastNonzero(w.log))
    ensures var r, last := Finish(w, o, cluster, spec, built), LastNonzero(w.log);
            Good(r.world) <==>
              if r.landed then Keeps(last, w.annotations, Desired(spec))
              else Remembers(r.world.sts, last, w.annotations)
  {
    FinishWrites(w, o, cluster, spec, built);
  }

  // ---- When the write lands ----

  /** The update would change the claim template, and claim expansion has no reason to delete the StatefulSet first. */
  predicate TemplateStuck(sts: Sts, pvcs: map<string, int>, cluster: string, spec: Spec, built: int) {
    ChangesTemplate(sts, spec) && TooSmall(pvcs, cluster, spec.replicas, built) == {}
  }

  predicate Lands(sts: Sts, pvcs: map<string, int>, cluster: string, spec: Spec, built: int) {
    Refusal(sts, built).None? && !TemplateStuck(sts, pvcs, cluster, spec, built)
  }

  /** With a healthy server the write lands exactly when the storage is neither refused nor stuck in the template. */
  lemma HealthyFinish(w: World, o: Oracle, cluster: string, spec: Spec, built: int)
    requires HealthyFrom(o, w.calls)
    ensures var r, sts := Finish(w, o, cluster, spec, built), Settle(w.sts, true);
            && (r.landed <==> Lands(sts, w.pvcs, cluster, spec, built))
            && (r.landed ==> r.ending == Finished)
            && (!r.landed ==> r.world.sts == sts)
  {
    HealthyScaleSucceeds(w, o, cluster, Some(spec.replicas), built);
    ScaleIsGuaranteed(w, o, cluster, Some(spec.replicas), built);
    if Settle(w.sts, true).Absent? {
      GoneStaysGone(w, o, cluster, Some(spec.replicas), built);
    } else if TooSmall(w.pvcs, cluster, spec.replicas, built) == {} {
      NothingToDoKeepsSts(w, o, cluster, Some(spec.replicas), built);
    }
  }

  lemma {:induction false} TemplateIsNotChanged(w: World, o: Oracle, spec: Spec, built: int, attempt: nat)
    requires ChangesTemplate(w.sts, spec) && !w.sts.terminating
    ensures !TookEffect(WriteSts(w, o, spec, built, attempt).1)
    decreases WRITE_ATTEMPTS - attempt
  {
    var w2 := Answer(Answer(w, o), o);
    if VerdictOf(Answer(w, o), o) == Conflict && attempt + 1 < WRITE_ATTEMPTS {
      TemplateIsNotChanged(w2, o, spec, built, attempt + 1);
    }
  }

  /** For some replies the write lands. */
  predicate MayLand(w: World, cluster: string, spec: Spec, built: int) {
    (w.sts.Present? && w.sts.terminating) || Lands(w.sts, w.pvcs, cluster, spec, built)
  }

  lemma LandsOnlyIf(w: World, o: Oracle, cluster: string, spec: Spec, built: int)
    requires Finish(w, o, cluster, spec, built).landed
    ensures MayLand(w, cluster, spec, built)
  {
    if !MayLand(w, cluster, spec, built) && TemplateStuck(w.sts, w.pvcs, cluster, spec, built) {
      NothingToDoKeepsSts(w, o, cluster, Some(spec.replicas), built);
      TemplateIsNotChanged(Scale(w, o, cluster, Some(spec.replicas), built).0, o, spec, built, 0);
    }
  }

  // ---- When a step is good, told beforehand ----

  /** Deciding on `view` in the world `w`, with a healthy server, the step writes or leaves something bad. */
  predicate Loses(w: World, view: Seen, cluster: string, spec: Spec, refreshed: Spec) {
    var plan := Decide(view, Desired(spec));
    var used, saved := SpecUsed(plan, spec, refreshed), Annotated(w.annotations, view, plan);
    var last := LastNonzero(w.log);
    && plan != Stop
    && if Lands(w.sts, w.pvcs, cluster, used, spec.storage) then !Keeps(last, saved, Desired(used))
       else !Remembers(w.sts, last, saved)
  }

  function Settled(w: World): World {
    w.(sts := Settle(w.sts, true))
  }

  predicate LosesWhenHealthy(w: World, cluster: string, spec: Spec, refreshed: Spec, seen: Option<Seen>) {
    Loses(Settled(w), View(Settled(w), seen), cluster, spec, refreshed)
  }

  /** The same for some replies: the write may land or not, as far as it can. */
  predicate MayLoseFrom(w: World, view: Seen, cluster: string, spec: Spec, refreshed: Spec) {
    var plan := Decide(view, Desired(spec));
    var used, saved := SpecUsed(plan, spec, refreshed), Annotated(w.annotations, view, plan);
    var last := LastNonzero(w.log);
    && plan != Stop
    && (|| (MayLand(w, cluster, used, spec.storage) && !Keeps(last, saved, Desired(used)))
        || !Remembers(w.sts, last, saved))
  }

  /** A pending deletion may have completed when the step reads. */
  predicate MayLose(w: World, cluster: string, spec: Spec, refreshed: Spec, seen: Option<Seen>) {
    || MayLoseFrom(w, View(w, seen), cluster, spec, refreshed)
    || (seen.None? && MayLoseFrom(Settled(w), View(Settled(w), None), cluster, spec, refreshed))
  }

  /** The world in which claim expansion starts, the annotations having been written or not. */
  function Prepared(w: World, o: Oracle, view: Seen, plan: Plan): World {
    var w2 := Answer(w, o);
    if TookEffect(VerdictOf(w, o)) then w2.(annotations := Annotated(w2.annotations, view, plan)) else w2
  }

  /** From a good world, with a healthy server, a step ends in a good world exactly when its inputs are not lossy. */
  lemma HealthyStepIsGoodIff(w: World, o: Oracle, cluster: string, spec: Spec, refreshed: Spec, seen: Option<Seen>)
    requires Good(w) && Healthy(o)
    ensures Good(Reconcile(w, o, cluster, spec, refreshed, seen).world) <==>
            !LosesWhenHealthy(w, cluster, spec, refreshed, seen)
  {
    var w1 := Answer(w, o);
    var view := View(w1, seen);
    var plan := Decide(view, Desired(spec));
    if plan == Go {
      FinishIsGoodIff(w1, o, cluster, spec, spec.storage);
      HealthyFinish(w1, o, cluster, spec, spec.storage);
    } else if plan != Stop {
      var w3, used := Prepared(w1, o, view, plan), SpecUsed(plan, spec, refreshed);
      FinishIsGoodIff(w3, o, cluster, used, spec.storage);
      HealthyFinish(w3, o, cluster, used, spec.storage);
    }
  }

  /** Pending deletions complete only after call `n`. */
  function SettledAfter(n: nat): Oracle {
    k => Reply(k > n, Done)
  }

  /** Call `n` fails, and no deletion completes. */
  function FailsAt(n: nat): Oracle {
    k => Reply(false, if k == n then Rejected else Done)
  }

  /** The write lands when pending deletions complete right after the step has decided. */
  lemma LandingLoses(w: World, cluster: string, spec: Spec, refreshed: Spec, seen: Option<Seen>)
    requires Good(w)
    requires var view := View(w, seen);
             var plan := Decide(view, Desired(spec));
             var used := SpecUsed(plan, spec, refreshed);
             && plan != Stop && MayLand(w, cluster, used, spec.storage)
             && !Keeps(LastNonzero(w.log), Annotated(w.annotations, view, plan), Desired(used))
    ensures !Good(Reconcile(w, SettledAfter(w.calls), cluster, spec, refreshed, seen).world)
  {
    var o := SettledAfter(w.calls);
    var w1 := Answer(w, o);
    var view := View(w, seen);
    var plan := Decide(view, Desired(spec));
    var used := SpecUsed(plan, spec, refreshed);
    var w3 := if plan == Go then w1 else Prepared(w1, o, view, plan);
    FinishIsGoodIff(w3, o, cluster, used, spec.storage);
    HealthyFinish(w3, o, cluster, used, spec.storage);
  }

  /** The annotations are written, and then a call fails. */
  lemma FailingLoses(w: World, cluster: string, spec: Spec, refreshed: Spec, seen: Option<Seen>)
    requires Good(w)
    requires var view := View(w, seen);
             var plan := Decide(view, Desired(spec));
             plan != Stop && !Remembers(w.sts, LastNonzero(w.log), Annotated(w.annotations, view, plan))
    ensures !Good(Reconcile(w, FailsAt(w.calls + 2), cluster, spec, refreshed, seen).world)
  {
  }

  /** A lossy input has replies with which the step ends in a world that is not good. */
  lemma MayLoseDoesLose(w: World, cluster: string, spec: Spec, refreshed: Spec, seen: Option<Seen>)
    returns (o: Oracle)
    requires Good(w) && MayLose(w, cluster, spec, refreshed, seen)
    ensures !Good(Reconcile(w, o, cluster, spec, refreshed, seen).world)
  {
    if MayLoseFrom(w, View(w, seen), cluster, spec, refreshed) {
      var view := View(w, seen);
      var plan := Decide(view, Desired(spec));
      if !Remembers(w.sts, LastNonzero(w.log), Annotated(w.annotations, view, plan)) {
        o := FailsAt(w.calls + 2);
        FailingLoses(w, cluster, spec, refreshed, seen);
      } else {
        o := SettledAfter(w.calls);
        LandingLoses(w, cluster, spec, refreshed, seen);
      }
    } else {
      o := AllDone();
      HealthyStepIsGoodIff(w, o, cluster, spec, refreshed, seen);
    }
  }

  /** `w3` is `w` when claim expansion starts: a deletion may have completed, the annotations may have been written. */
  ghost predicate Ready(w: World, w3: World, view: Seen, plan: Plan) {
    && w3.log == w.log && w3.pvcs == w.pvcs
    && (w3.sts == w.sts || (w.sts.Present? && w.sts.terminating && w3.sts.Absent?))
    && (w3.annotations == Annotated(w.annotations, view, plan) || (!plan.Save? && w3.annotations == w.annotations))
  }

  /** A bad outcome of claim expansion and the write, from a prepared world, was possible from the step's own. */
  lemma OutcomeMayLose(w: World, w3: World, cluster: string, spec: Spec, refreshed: Spec, view: Seen, r: Outcome)
    requires var plan := Decide(view, Desired(spec));
             var used, last := SpecUsed(plan, spec, refreshed), LastNonzero(w.log);
             && Good(w) && plan != Stop && Ready(w, w3, view, plan)
             && (r.landed ==> MayLand(w3, cluster, used, spec.storage) && !Keeps(last, w3.annotations, Desired(used)))
             && (!r.landed ==> SameOrGoing(w3.sts, r.world.sts) && !Remembers(r.world.sts, last, w3.annotations))
    ensures MayLoseFrom(w, view, cluster, spec, refreshed)
  {
  }

  lemma ReadyMayLose(w: World, w3: World, o: Oracle, cluster: string, spec: Spec, refreshed: Spec, view: Seen)
    requires var plan := Decide(view, Desired(spec));
             && Good(w) && plan != Stop && Ready(w, w3, view, plan)
             && !Good(Finish(w3, o, cluster, SpecUsed(plan, spec, refreshed), spec.storage).world)
    ensures MayLoseFrom(w, view, cluster, spec, refreshed)
  {
    var used := SpecUsed(Decide(view, Desired(spec)), spec, refreshed);
    var r := Finish(w3, o, cluster, used, spec.storage);
    FinishIsGoodIff(w3, o, cluster, used, spec.storage);
    FinishWrites(w3, o, cluster, used, spec.storage);
    if r.landed {
      LandsOnlyIf(w3, o, cluster, used, spec.storage);
    }
    OutcomeMayLose(w, w3, cluster, spec, refreshed, view, r);
  }

  /** The same for the step as it reads: `w0` is the world then. */
  lemma ReadMayLose(w: World, o: Oracle, cluster: string, spec: Spec, refreshed: Spec, seen: Option<Seen>)
    requires Good(w) && !Good(Reconcile(w, o, cluster, spec, refreshed, seen).world)
    ensures var w0 := w.(sts := Answer(w, o).sts);
            MayLoseFrom(w0, View(w0, seen), cluster, spec, refreshed)
  {
    var w0, w1 := w.(sts := Answer(w, o).sts), Answer(w, o);
    var view := View(w1, seen);
    var plan := Decide(view, Desired(spec));
    if plan == Go {
      ReadyMayLose(w0, w1, o, cluster, spec, refreshed, view);
    } else {
      var w3 := Prepared(w1, o, view, plan);
      if plan.Save? && VerdictOf(w1, o) != Done {
        OutcomeMayLose(w0, w3, cluster, spec, refreshed, view, Reconcile(w, o, cluster, spec, refreshed, seen));
      } else {
        ReadyMayLose(w0, w3, o, cluster, spec, refreshed, view);
      }
    }
  }

  /** From a good world, a step is good for all replies exactly when its inputs cannot lose. */
  lemma StepIsSafeIff(w: World, cluster: string, spec: Spec, refreshed: Spec, seen: Option<Seen>)
    requires Good(w)
    ensures (forall o: Oracle :: Good(Reconcile(w, o, cluster, spec, refreshed, seen).world)) <==>
            !MayLose(w, cluster, spec, refreshed, seen)
  {
    if MayLose(w, cluster, spec, refreshed, seen) {
      var o := MayLoseDoesLose(w, cluster, spec, refreshed, seen);
    } else {
      forall o: Oracle
        ensures Good(Reconcile(w, o, cluster, spec, refreshed, seen).world)
      {
        if !Good(Reconcile(w, o, cluster, spec, refreshed, seen).world) {
          ReadMayLose(w, o, cluster, spec, refreshed, seen);
        }
      }
    }
  }

  // ---- What a step does ----

  /**
    A step whose first read succeeds is refused exactly when the copy it reads runs more nodes than the nonzero count
    asked for, or is at zero and another count than the saved one is asked for; then nothing is changed.
  */
  lemma RefusedIff(w: World, o: Oracle, cluster: string, spec: Spec, refreshed: Spec, seen: Option<Seen>)
    ensures var r, view := Reconcile(w, o, cluster, spec, refreshed, seen), View(Answer(w, o), seen);
            var d := if spec.override.Some? then spec.override.value else spec.replicas;
            && (r.ending == Refused <==>
                  && o(w.calls).verdict == Done && view.sts.Present?
                  && (|| 0 < d < view.sts.replicas
                      || (&& view.sts.replicas == 0 < d && BEFORE_ZERO in view.annotations
                          && ParseInt32(view.annotations[BEFORE_ZERO]) != Some(d))))
            && (r.ending == Refused || o(w.calls).verdict != Done ==> r.world == Answer(w, o) && !r.landed)
  {
  }

  /**
    With a healthy server and an up-to-date cache: when the saved count is written and removed, when the step finishes,
    and which count it writes, once. Nothing else touches the StatefulSet unless claims are expanded.
  */
  lemma HealthyStepDoes(w: World, o: Oracle, cluster: string, spec: Spec, refreshed: Spec)
    requires Healthy(o)
    ensures var r, sts := Reconcile(w, o, cluster, spec, refreshed, None), Settle(w.sts, true);
            var d := if spec.override.Some? then spec.override.value else spec.replicas;
            var saves, restores := sts.Present? && d == 0 < sts.replicas, sts.Present? && sts.replicas == 0 < d;
            var used := if saves then refreshed else spec;
            && r.world.annotations ==
                 (if saves then w.annotations[BEFORE_ZERO := Itoa(sts.replicas)]
                  else if restores && Saved(w.annotations, d) then w.annotations - {BEFORE_ZERO}
                  else w.annotations)
            && (r.ending == Finished <==> r.ending != Refused && Lands(sts, w.pvcs, cluster, used, spec.storage))
            && (r.ending == Finished ==>
                  && r.world.sts.Present? && |r.world.log| > |w.log|
                  && r.world.sts.replicas == (if used.override.Some? then used.override.value else used.replicas)
                  && r.world.log[|r.world.log| - 1] == WroteReplicas(r.world.sts.replicas)
                  && forall i :: |w.log| <= i < |r.world.log| - 1 ==> !r.world.log[i].WroteReplicas?)
            && (r.ending != Finished ==> r.world.sts == sts && r.world.log == w.log)
  {
    var w1 := Answer(w, o);
    var view := View(w1, None);
    var plan := Decide(view, Desired(spec));
    if plan != Stop {
      var w3 := if plan == Go then w1 else Prepared(w1, o, view, plan);
      HealthyFinishDoes(w3, o, cluster, SpecUsed(plan, spec, refreshed), spec.storage);
    }
  }

  lemma HealthyFinishDoes(w: World, o: Oracle, cluster: string, spec: Spec, built: int)
    requires HealthyFrom(o, w.calls)
    ensures var r := Finish(w, o, cluster, spec, built);
            && r.world.annotations == w.annotations
            && (r.landed ==>
                  && |r.world.log| > |w.log| && r.world.log[|r.world.log| - 1] == WroteReplicas(Desired(spec))
                  && r.world.sts.Present? && r.world.sts.replicas == Desired(spec)
                  && forall i :: |w.log| <= i < |r.world.log| - 1 ==> !r.world.log[i].WroteReplicas?)
            && (!r.landed ==> r.ending == Failed && r.world.log == w.log)
            && (r.landed ==> r.ending == Finished)
            && (r.landed <==> Lands(Settle(w.sts, true), w.pvcs, cluster, spec, built))
            && (!r.landed ==> r.world.sts == Settle(w.sts, true))
  {
    HealthyFinish(w, o, cluster, spec, built);
    HealthyScaleSucceeds(w, o, cluster, Some(spec.replicas), built);
    ScaleIsGuaranteed(w, o, cluster, Some(spec.replicas), built);
    WriteStsPuts(Scale(w, o, cluster, Some(spec.replicas), built).0, o, spec, built, 0);
  }

  /** The read of the attempt succeeds, and the update that follows gets the given answer. */
  predicate Answers(o: Oracle, n: nat, v: Verdict) {
    o(n).verdict == Done && o(n + 1).verdict == v
  }

  lemma ConflictIsRetried(w: World, o: Oracle, spec: Spec, built: int, attempt: nat)
    requires w.sts.Present? && !w.sts.terminating && attempt + 1 < WRITE_ATTEMPTS && Answers(o, w.calls, Conflict)
    ensures WriteSts(w, o, spec, built, attempt) ==
            WriteSts(w.(calls := w.calls + 2), o, spec, built, attempt + 1)
  {
    assert Answer(Answer(w, o), o) == w.(calls := w.calls + 2);
  }

  /** The `k` attempts that start at calls `n`, `n + 2` and so on all meet a conflict. */
  predicate Conflicts(o: Oracle, n: nat, k: nat)
    decreases k
  {
    k == 0 || (Answers(o, n, Conflict) && Conflicts(o, n + 2, k - 1))
  }

  lemma {:induction false} ConflictsAreRetried(w: World, o: Oracle, spec: Spec, built: int, attempt: nat, k: nat)
    requires w.sts.Present? && !w.sts.terminating && attempt + k < WRITE_ATTEMPTS && Conflicts(o, w.calls, k)
    ensures WriteSts(w, o, spec, built, attempt) ==
            WriteSts(w.(calls := w.calls + 2 * k), o, spec, built, attempt + k)
    decreases k
  {
    if k != 0 {
      ConflictIsRetried(w, o, spec, built, attempt);
      ConflictsAreRetried(w.(calls := w.calls + 2), o, spec, built, attempt + 1, k - 1);
    }
  }

  /** An update that meets a conflict up to four times and is then accepted is done; a fifth conflict is the end. */
  lemma FifthAttemptDecides(w: World, o: Oracle, spec: Spec, built: int, k: nat)
    requires w.sts.Present? && !w.sts.terminating && !ChangesTemplate(w.sts, spec) && k <= 4
    requires Conflicts(o, w.calls, k)
    ensures Answers(o, w.calls + 2 * k, Done) ==>
              WriteSts(w, o, spec, built, 0).1 == Done &&
              WriteSts(w, o, spec, built, 0).0.sts == w.sts.(replicas := Desired(spec))
    ensures k == 4 && Answers(o, w.calls + 8, Conflict) ==> !TookEffect(WriteSts(w, o, spec, built, 0).1)
  {
    ConflictsAreRetried(w, o, spec, built, 0, k);
  }

  /** A StatefulSet that goes away after the first update met a conflict is not created by the next attempt. */
  lemma GoneAfterConflictFails(w: World, o: Oracle, spec: Spec, built: int)
    requires Answer(Answer(w, o), o).sts.Present? && Answers(o, w.calls, Conflict)
    requires Answer(Answer(Answer(w, o), o), o).sts.Absent?
    ensures var (w', v) := WriteSts(w, o, spec, built, 0);
            !TookEffect(v) && w'.sts.Absent? && w'.log == w.log
  {
  }

  /** Removing the saved count needs a current copy: with an old one only saving changes the annotations. */
  lemma OldCopyKeepsSavedCount(w: World, o: Oracle, cluster: string, spec: Spec, refreshed: Spec, seen: Seen)
    requires seen.annotations != w.annotations
    requires !(seen.sts.Present? && seen.sts.replicas > 0 && Desired(spec) == 0)
    ensures Reconcile(w, o, cluster, spec, refreshed, Some(seen)).world.annotations == w.annotations
  {
    var w1 := Answer(w, o);
    var plan := Decide(seen, Desired(spec));
    if VerdictOf(w, o) == Done && plan != Stop {
      FinishKeepsAnnotations(if plan == Go then w1 else Prepared(w1, o, seen, plan), o, cluster, spec, spec.storage);
    }
  }

  lemma FinishKeepsAnnotations(w: World, o: Oracle, cluster: string, spec: Spec, built: int)
    ensures Finish(w, o, cluster, spec, built).world.annotations == w.annotations
  {
    ScaleIsGuaranteed(w, o, cluster, Some(spec.replicas), built);
    WriteStsPuts(Scale(w, o, cluster, Some(spec.replicas), built).0, o, spec, built, 0);
  }

  // ---- With an up-to-date cache ----

  /** Creating the StatefulSet with `d` replicas shrinks the cluster, or forgets how many nodes it had. */
  predicate CreateLoses(w: World, d: Count) {
    var last := LastNonzero(w.log);
    last > 0 && (0 < d < last || (d == 0 && !Saved(w.annotations, last)))
  }

  /** The step would restore the last count from zero. */
  predicate Restores(w: World, d: Count) {
    w.sts.Present? && w.sts.replicas == 0 && 0 < LastNonzero(w.log) == d
  }

  /**
    What goes wrong with a healthy server and an up-to-date cache: the StatefulSet is missing; the spec is raised from
    zero while the count is being saved; or the write does not land after the saved count was removed, the storage
    asked for being refused or stuck in the claim template.
  */
  lemma CurrentLossIff(w: World, cluster: string, spec: Spec, refreshed: Spec)
    requires Good(w)
    ensures var sts, d := Settle(w.sts, true), Desired(spec);
            LosesWhenHealthy(w, cluster, spec, refreshed, None) <==>
              if sts.Absent? then CreateLoses(w, d)
              else if ScaleToZero(sts.replicas, d) then
                0 < Desired(refreshed) < sts.replicas && Lands(sts, w.pvcs, cluster, refreshed, spec.storage)
              else Restores(w, d) && !Lands(sts, w.pvcs, cluster, spec, spec.storage)
  {
    if w.sts.Present? {
      ParsePrint(w.sts.replicas);
    }
  }

  /** What can go wrong for some replies, with an up-to-date cache: every restore can, since any later call may fail. */
  lemma CurrentRiskIff(w: World, cluster: string, spec: Spec, refreshed: Spec)
    requires Good(w)
    ensures var d := Desired(spec);
            MayLose(w, cluster, spec, refreshed, None) <==>
              || ((w.sts.Absent? || w.sts.terminating) && CreateLoses(w, d))
              || (w.sts.Present? && ScaleToZero(w.sts.replicas, d) && 0 < Desired(refreshed) < w.sts.replicas &&
                  MayLand(w, cluster, refreshed, spec.storage))
              || Restores(w, d)
  {
    if w.sts.Present? {
      ParsePrint(w.sts.replicas);
    }
  }

  // ---- Whole runs ----

  /** A reconcile step, the StatefulSet going away between steps, or someone editing another annotation. */
  datatype Move =
    | Step(o: Oracle, cluster: string, spec: Spec, refreshed: Spec, seen: Option<Seen>)
    | StsGone
    | Annotate(key: string, value: string)

  function Apply(w: World, m: Move): World {
    match m
    case Step(o, cluster, spec, refreshed, seen) => Reconcile(w, o, cluster, spec, refreshed, seen).world
    case StsGone => w.(sts := Absent)
    case Annotate(key, value) => if key == BEFORE_ZERO then w else w.(annotations := w.annotations[key := value])
  }

  /**
    The run is good at every point: nonzero counts never decrease, and whenever the StatefulSet is at zero after
    having run, the annotation parses to the last count.
  */
  ghost predicate GoodThroughout(w: World, moves: seq<Move>)
    decreases |moves|
  {
    Good(w) && (moves == [] || GoodThroughout(Apply(w, moves[0]), moves[1..]))
  }

  ghost predicate HealthyRun(moves: seq<Move>) {
    forall i :: 0 <= i < |moves| && moves[i].Step? ==> Healthy(moves[i].o)
  }

  predicate LossyMove(w: World, m: Move) {
    m.Step? && LosesWhenHealthy(w, m.cluster, m.spec, m.refreshed, m.seen)
  }

  /** No step of the run starts with inputs that lose although the server is healthy. */
  predicate NeverLosesWhenHealthy(w: World, moves: seq<Move>)
    decreases |moves|
  {
    moves == [] || (!LossyMove(w, moves[0]) && NeverLosesWhenHealthy(Apply(w, moves[0]), moves[1..]))
  }

  lemma HealthyMoveIsGoodIff(w: World, m: Move)
    requires Good(w) && (m.Step? ==> Healthy(m.o))
    ensures Good(Apply(w, m)) <==> !LossyMove(w, m)
  {
    if m.Step? {
      HealthyStepIsGoodIff(w, m.o, m.cluster, m.spec, m.refreshed, m.seen);
    }
  }

  /** With a healthy server, a run is good throughout exactly when none of its steps starts with lossy inputs. */
  lemma {:induction false} HealthyRunIsGoodIff(w: World, moves: seq<Move>)
    requires Good(w) && HealthyRun(moves)
    ensures GoodThroughout(w, moves) <==> NeverLosesWhenHealthy(w, moves)
    decreases |moves|
  {
    if moves != [] {
      HealthyMoveIsGoodIff(w, moves[0]);
      if Good(Apply(w, moves[0])) {
        HealthyRunIsGoodIff(Apply(w, moves[0]), moves[1..]);
      }
    }
  }

  function WithReplies(m: Move, o: Oracle): Move {
    if m.Step? then m.(o := o) else m
  }

  /** The run is good at every point, whatever the server replies in each of its steps. */
  ghost predicate AlwaysGood(w: World, moves: seq<Move>)
    decreases |moves|
  {
    Good(w) && (moves == [] || forall o: Oracle :: AlwaysGood(Apply(w, WithReplies(moves[0], o)), moves[1..]))
  }

  predicate SafeMove(w: World, m: Move) {
    m.Step? ==> !MayLose(w, m.cluster, m.spec, m.refreshed, m.seen)
  }

  /** Whatever the server replies, no step starts with inputs that may lose. */
  ghost predicate AlwaysSafe(w: World, moves: seq<Move>)
    decreases |moves|
  {
    moves == [] ||
    (SafeMove(w, moves[0]) && forall o: Oracle :: AlwaysSafe(Apply(w, WithReplies(moves[0], o)), moves[1..]))
  }

  lemma MoveIsSafeIff(w: World, m: Move)
    requires Good(w)
    ensures (forall o: Oracle :: Good(Apply(w, WithReplies(m, o)))) <==> SafeMove(w, m)
  {
    if m.Step? {
      StepIsSafeIff(w, m.cluster, m.spec, m.refreshed, m.seen);
      forall o: Oracle
        ensures Apply(w, WithReplies(m, o)) == Reconcile(w, o, m.cluster, m.spec, m.refreshed, m.seen).world
      {
      }
      if !SafeMove(w, m) {
        var o: Oracle :| !Good(Reconcile(w, o, m.cluster, m.spec, m.refreshed, m.seen).world);
        assert !Good(Apply(w, WithReplies(m, o)));
      }
    }
  }

  /** Over all replies, a run is good throughout exactly when none of its steps can start with inputs that may lose. */
  lemma {:induction false} RunIsSafeIff(w: World, moves: seq<Move>)
    requires Good(w)
    ensures AlwaysGood(w, moves) <==> AlwaysSafe(w, moves)
    ensures AlwaysGood(w, moves) ==> GoodThroughout(w, moves)
    decreases |moves|
  {
    if moves != [] {
      var m := moves[0];
      MoveIsSafeIff(w, m);
      forall o: Oracle | Good(Apply(w, WithReplies(m, o)))
        ensures AlwaysGood(Apply(w, WithReplies(m, o)), moves[1..]) <==>
                AlwaysSafe(Apply(w, WithReplies(m, o)), moves[1..])
        ensures AlwaysGood(Apply(w, WithReplies(m, o)), moves[1..]) ==>
                GoodThroughout(Apply(w, WithReplies(m, o)), moves[1..])
      {
        RunIsSafeIff(Apply(w, WithReplies(m, o)), moves[1..]);
      }
      assert WithReplies(m, if m.Step? then m.o else AllDone()) == m;
    }
  }

  /**
    The server is healthy and the cache up to date, the spec is not edited during the step, the StatefulSet is there
    and stays unless there never was one, and a restore asks for storage with which the write lands.
  */
  ghost predicate Calm(w: World, m: Move) {
    m.Step? ==>
      && Healthy(m.o) && m.seen.None? && m.refreshed == m.spec
      && (LastNonzero(w.log) == 0 || (w.sts.Present? && !w.sts.terminating))
      && (Restores(w, Desired(m.spec)) ==> Lands(w.sts, w.pvcs, m.cluster, m.spec, m.spec.storage))
  }

  ghost predicate CalmRun(w: World, moves: seq<Move>)
    decreases |moves|
  {
    moves == [] || (Calm(w, moves[0]) && CalmRun(Apply(w, moves[0]), moves[1..]))
  }

  lemma CalmMoveIsGood(w: World, m: Move)
    requires Good(w) && Calm(w, m)
    ensures Good(Apply(w, m))
  {
    if m.Step? {
      HealthyStepIsGoodIff(w, m.o, m.cluster, m.spec, m.refreshed, m.seen);
      CurrentLossIff(w, m.cluster, m.spec, m.refreshed);
    }
  }

  /** Calm runs are good throughout. */
  lemma {:induction false} CalmRunIsGood(w: World, moves: seq<Move>)
    requires Good(w) && CalmRun(w, moves)
    ensures GoodThroughout(w, moves)
    decreases |moves|
  {
    if moves != [] {
      CalmMoveIsGood(w, moves[0]);
      CalmRunIsGood(Apply(w, moves[0]), moves[1..]);
    }
  }

  // ---- Clusters that shrink ----

  const STORAGE: int := 10

  function AllDone(): Oracle {
    k => Reply(true, Done)
  }

  function Running(n: Count): World {
    World(Present(n, STORAGE, false), map[], map[], 0, [WroteReplicas(n)])
  }

  function AtZero(n: Count): World {
    World(Present(0, STORAGE, false), map[], map[BEFORE_ZERO := Itoa(n)], 0, [WroteReplicas(n), WroteReplicas(0)])
  }

  lemma StartsGood(n: Count)
    requires n > 0
    ensures Good(Running(n)) && LastNonzero(Running(n).log) == n
    ensures Good(AtZero(n)) && LastNonzero(AtZero(n).log) == n
  {
    ParsePrint(n);
    assert Running(n).log[..0] == [];
    assert AtZero(n).log[..1] == [WroteReplicas(n)];
    assert AtZero(n).log[..1][..0] == [];
  }

  /** With a healthy server, no claims and unchanged storage, the desired count is written. */
  lemma HealthyFinishWrites(w: World, cluster: string, spec: Spec)
    requires w.pvcs == map[] && spec.storage == STORAGE && (w.sts.Present? ==> w.sts.capacity == STORAGE)
    ensures Finish(w, AllDone(), cluster, spec, STORAGE).world.log == w.log + [WroteReplicas(Desired(spec))]
  {
    HealthyFinish(w, AllDone(), cluster, spec, STORAGE);
    ScaleIsGuaranteed(w, AllDone(), cluster, Some(spec.replicas), STORAGE);
    var w1 := Scale(w, AllDone(), cluster, Some(spec.replicas), STORAGE).0;
    WriteStsPuts(w1, AllDone(), spec, STORAGE, 0);
  }

  lemma Shrank(log: seq<Event>, i: nat, j: nat)
    requires i < j < |log| && log[i].WroteReplicas? && log[j].WroteReplicas? && 0 < log[j].n < log[i].n
    ensures !NeverShrank(log)
  {
  }

  /** After the StatefulSet went away, a step can bring back fewer nodes. */
  lemma GuardSkippedIsReal(cluster: string, n: Count, d: Count)
    requires 0 < d < n
    ensures var spec := Spec(d, None, STORAGE);
            var w := Apply(Apply(Running(n), StsGone), Step(AllDone(), cluster, spec, spec, None));
            w.log == [WroteReplicas(n), WroteReplicas(d)] && !NeverShrank(w.log)
  {
    HealthyFinishWrites(Answer(Apply(Running(n), StsGone), AllDone()), cluster, Spec(d, None, STORAGE));
    Shrank([WroteReplicas(n), WroteReplicas(d)], 0, 1);
  }

  /** A spec edited from 0 to fewer nodes while the count is being saved shrinks the cluster in a single step. */
  lemma SpecMovedIsReal(cluster: string, n: Count, d: Count)
    requires 0 < d < n
    ensures var spec, refreshed := Spec(0, None, STORAGE), Spec(d, None, STORAGE);
            var w := Reconcile(Running(n), AllDone(), cluster, spec, refreshed, None).world;
            w.log == [WroteReplicas(n), WroteReplicas(d)] && !NeverShrank(w.log)
  {
    var w1 := Answer(Running(n), AllDone());
    HealthyFinishWrites(Prepared(w1, AllDone(), View(w1, None), Save(n)), cluster, Spec(d, None, STORAGE));
    Shrank([WroteReplicas(n), WroteReplicas(d)], 0, 1);
  }

  /** A guard that decides on an old copy of the StatefulSet lets it shrink. */
  lemma OldCopyIsReal(cluster: string, m: Count, d: Count, n: Count)
    requires 0 < m <= d < n
    ensures var spec, seen := Spec(d, None, STORAGE), Some(Seen(Present(m, STORAGE, false), map[]));
            var w := Reconcile(Running(n), AllDone(), cluster, spec, spec, seen).world;
            w.log == [WroteReplicas(n), WroteReplicas(d)] && !NeverShrank(w.log)
  {
    HealthyFinishWrites(Answer(Running(n), AllDone()), cluster, Spec(d, None, STORAGE));
    Shrank([WroteReplicas(n), WroteReplicas(d)], 0, 1);
  }

  /** When the step sees no saved count, any smaller number of nodes can be started. */
  lemma FewerWithoutSavedCount(w: World, cluster: string, n: Count, d: Count, seen: Option<Seen>)
    requires 0 < d < n && w.sts == Present(0, STORAGE, false) && w.log == AtZero(n).log && w.pvcs == map[]
    requires View(w, seen).sts == w.sts && BEFORE_ZERO !in View(w, seen).annotations
    ensures var fewer := Spec(d, None, STORAGE);
            var w' := Reconcile(w, AllDone(), cluster, fewer, fewer, seen).world;
            w'.log == [WroteReplicas(n), WroteReplicas(0), WroteReplicas(d)] && !NeverShrank(w'.log)
  {
    HealthyFinishWrites(Answer(w, AllDone()), cluster, Spec(d, None, STORAGE));
    Shrank([WroteReplicas(n), WroteReplicas(0), WroteReplicas(d)], 0, 2);
  }

  /** The saved count is there, but the step decides on a copy of the cluster from before it was saved. */
  lemma OldAnnotationsAreReal(cluster: string, n: Count, d: Count)
    requires 0 < d < n
    ensures var fewer, seen := Spec(d, None, STORAGE), Some(Seen(Present(0, STORAGE, false), map[]));
            var w := Reconcile(AtZero(n), AllDone(), cluster, fewer, fewer, seen).world;
            w.log == [WroteReplicas(n), WroteReplicas(0), WroteReplicas(d)] && !NeverShrank(w.log)
  {
    FewerWithoutSavedCount(AtZero(n), cluster, n, d, Some(Seen(Present(0, STORAGE, false), map[])));
  }

  /** A restore that fails after removing the saved count lets the next step start fewer nodes than before. */
  lemma SavedCountDroppedIsReal(cluster: string, n: Count, d: Count)
    requires 0 < d < n
    ensures var restore, fewer := Spec(n, None, STORAGE), Spec(d, None, STORAGE);
            var w1 := Reconcile(AtZero(n), FailsAt(2), cluster, restore, restore, None).world;
            var w2 := Reconcile(w1, AllDone(), cluster, fewer, fewer, None).world;
            w2.log == [WroteReplicas(n), WroteReplicas(0), WroteReplicas(d)] && !NeverShrank(w2.log)
  {
    ParsePrint(n);
    var restore := Spec(n, None, STORAGE);
    FewerWithoutSavedCount(
      Reconcile(AtZero(n), FailsAt(2), cluster, restore, restore, None).world, cluster, n, d, None);
  }

  /**
    So does a restore that asks for other storage: the saved count is removed, and then the storage is refused if it
    is less, and rejected as a change of the claim template if it is more, there being no claim to expand. No call
    fails otherwise, nothing is edited during a step, and the StatefulSet is there all the time.
  */
  lemma OtherStorageDropsSavedCount(cluster: string, n: Count, d: Count, storage: int)
    requires 0 < d < n && storage != STORAGE
    ensures var restore, fewer := Spec(n, None, storage), Spec(d, None, STORAGE);
            var w1 := Reconcile(AtZero(n), AllDone(), cluster, restore, restore, None).world;
            var w2 := Reconcile(w1, AllDone(), cluster, fewer, fewer, None).world;
            && (storage < STORAGE ==> Refusal(AtZero(n).sts, storage).Some?)
            && (storage > STORAGE ==> TemplateStuck(AtZero(n).sts, map[], cluster, restore, storage))
            && LosesWhenHealthy(AtZero(n), cluster, restore, restore, None)
            && w2.log == [WroteReplicas(n), WroteReplicas(0), WroteReplicas(d)] && !NeverShrank(w2.log)
  {
    ParsePrint(n);
    StartsGood(n);
    var restore := Spec(n, None, storage);
    RestoreFails(cluster, n, storage);
    FewerWithoutSavedCount(
      Reconcile(AtZero(n), AllDone(), cluster, restore, restore, None).world, cluster, n, d, None);
  }

  lemma RestoreFails(cluster: string, n: Count, storage: int)
    requires n > 0 && storage != STORAGE
    ensures var restore := Spec(n, None, storage);
            var w1 := Reconcile(AtZero(n), AllDone(), cluster, restore, restore, None).world;
            && w1.sts == AtZero(n).sts && w1.log == AtZero(n).log && w1.pvcs == map[]
            && BEFORE_ZERO !in w1.annotations
  {
    ParsePrint(n);
    var restore := Spec(n, None, storage);
    var w1 := Answer(AtZero(n), AllDone());
    var w3 := Prepared(w1, AllDone(), View(w1, None), Drop);
    HealthyFinish(w3, AllDone(), cluster, restore, storage);
    ScaleIsGuaranteed(w3, AllDone(), cluster, Some(n), storage);
    WriteStsPuts(Scale(w3, AllDone(), cluster, Some(n), storage).0, AllDone(), restore, storage, 0);
  }

  // ---- Convergence ----

  /** The StatefulSet is as the spec asks, and so are the claims of as many pods as the spec itself counts. */
  ghost predicate Converged(w: World, cluster: string, spec: Spec) {
    && w.sts.Present? && w.sts.replicas == Desired(spec) && w.sts.capacity == spec.storage
    && TooSmall(w.pvcs, cluster, spec.replicas, spec.storage) == {}
  }

  /** No claim of a pod that runs is too small. */
  ghost predicate RunningClaimsFit(pvcs: map<string, int>, cluster: string, spec: Spec) {
    TooSmall(pvcs, cluster, Desired(spec), spec.storage) == {}
  }

  /** Of the pods that run, only those within the spec's own count have a claim that is too small. */
  predicate ExpansionReachesAll(pvcs: map<string, int>, cluster: string, spec: Spec) {
    TooSmall(pvcs, cluster, Desired(spec), spec.storage) <= PodNames(cluster, spec.replicas)
  }

  lemma ExpansionFitsIff(before: map<string, int>, after: map<string, int>, cluster: string, spec: Spec)
    requires Grew(before, after, TooSmall(before, cluster, spec.replicas, spec.storage), spec.storage)
    requires TooSmall(after, cluster, spec.replicas, spec.storage) == {}
    ensures RunningClaimsFit(after, cluster, spec) <==> ExpansionReachesAll(before, cluster, spec)
  {
    var names := PodNames(cluster, spec.replicas);
    if p :| p in TooSmall(before, cluster, Desired(spec), spec.storage) && p !in names {
      assert p in TooSmall(after, cluster, Desired(spec), spec.storage);
    }
    forall p | p in TooSmall(after, cluster, Desired(spec), spec.storage)
      ensures p in TooSmall(before, cluster, Desired(spec), spec.storage) && p !in names
    {
      assert p !in TooSmall(after, cluster, spec.replicas, spec.storage);
    }
  }

  lemma {:induction false} FewerPods(cluster: string, m: nat, n: nat)
    requires m <= n
    ensures PodNames(cluster, m) <= PodNames(cluster, n)
    decreases n
  {
    if m < n {
      FewerPods(cluster, m, n - 1);
    }
  }

  /** What holds of a finished step that started in `w` and ended in `w'`. */
  ghost predicate ConvergedFrom(w: World, w': World, cluster: string, spec: Spec) {
    && Converged(w', cluster, spec)
    && (RunningClaimsFit(w'.pvcs, cluster, spec) <==> ExpansionReachesAll(w.pvcs, cluster, spec))
    && (Desired(spec) <= spec.replicas ==> RunningClaimsFit(w'.pvcs, cluster, spec))
  }

  lemma FinishConverges(w: World, o: Oracle, cluster: string, spec: Spec)
    requires Finish(w, o, cluster, spec, spec.storage).ending == Finished
    ensures ConvergedFrom(w, Finish(w, o, cluster, spec, spec.storage).world, cluster, spec)
  {
    ScaleIsGuaranteed(w, o, cluster, Some(spec.replicas), spec.storage);
    NilIsNotRefused(w, o, cluster, Some(spec.replicas), spec.storage);
    var w1 := Scale(w, o, cluster, Some(spec.replicas), spec.storage).0;
    WriteStsPuts(w1, o, spec, spec.storage, 0);
    ExpansionFitsIff(w.pvcs, w1.pvcs, cluster, spec);
    if Desired(spec) <= spec.replicas {
      FewerPods(cluster, Desired(spec), spec.replicas);
    }
  }

  /**
    A step that finishes, whatever it saw, leaves a StatefulSet of the desired size and capacity, and no claim too
    small among the pods the spec counts. None of the pods that run has a claim too small exactly when, before the
    step, no such claim belonged to a pod that only an override of the replicas adds; so always if it adds none.
  */
  lemma FinishedStepConverges(w: World, o: Oracle, cluster: string, spec: Spec, seen: Option<Seen>)
    requires Reconcile(w, o, cluster, spec, spec, seen).ending == Finished
    ensures ConvergedFrom(w, Reconcile(w, o, cluster, spec, spec, seen).world, cluster, spec)
  {
    var w1 := Answer(w, o);
    var view := View(w1, seen);
    var plan := Decide(view, Desired(spec));
    FinishConverges(if plan == Go then w1 else Prepared(w1, o, view, plan), o, cluster, spec);
  }

  /** The claims of the first `n` pods, as created with the cluster. */
  function Claims(cluster: string, n: nat): map<string, int> {
    map p | p in PodNames(cluster, n) :: STORAGE
  }

  /** When the storage is raised, an override that adds pods leaves the claim of a running pod too small for good. */
  lemma OverrideLeavesClaimSmall(cluster: string, m: Count, n: Count)
    requires 0 < m < n
    ensures var spec := Spec(m, Some(n), STORAGE + 1);
            var w := Running(n).(pvcs := Claims(cluster, n));
            var r := Reconcile(w, AllDone(), cluster, spec, spec, None);
            r.ending == Finished && r.world.sts.Present? && r.world.sts.replicas == n &&
            !RunningClaimsFit(r.world.pvcs, cluster, spec)
  {
    var spec := Spec(m, Some(n), STORAGE + 1);
    var w := Running(n).(pvcs := Claims(cluster, n));
    PodNamesAre(cluster, m, 0);
    PodNamesAre(cluster, m, m);
    PodNamesAre(cluster, n, 0);
    PodNamesAre(cluster, n, m);
    assert PvcName(cluster, 0) in TooSmall(w.pvcs, cluster, m, spec.storage);
    assert PvcName(cluster, m) in TooSmall(w.pvcs, cluster, n, spec.storage);
    HealthyFinish(Answer(w, AllDone()), AllDone(), cluster, spec, spec.storage);
    FinishedStepConverges(w, AllDone(), cluster, spec, None);
  }

  lemma FinishIsStable(w: World, o: Oracle, cluster: string, spec: Spec)
    requires Healthy(o) && Converged(w, cluster, spec) && !w.sts.terminating
    ensures var r := Finish(w, o, cluster, spec, spec.storage);
            && r.ending == Finished
            && r.world.sts == w.sts && r.world.pvcs == w.pvcs && r.world.annotations == w.annotations
  {
    HealthyScaleSucceeds(w, o, cluster, Some(spec.replicas), spec.storage);
    ScaleIsGuaranteed(w, o, cluster, Some(spec.replicas), spec.storage);
    NothingToDoKeepsSts(w, o, cluster, Some(spec.replicas), spec.storage);
  }

  /** Once converged, a further step with a healthy server and an up-to-date cache changes nothing. */
  lemma ConvergedIsStable(w: World, o: Oracle, cluster: string, spec: Spec)
    requires Healthy(o) && Converged(w, cluster, spec) && !w.sts.terminating
    ensures var r := Reconcile(w, o, cluster, spec, spec, None);
            && r.ending == Finished
            && r.world.sts == w.sts && r.world.pvcs == w.pvcs && r.world.annotations == w.annotations
  {
    FinishIsStable(Answer(w, o), o, cluster, spec);
  }
}
