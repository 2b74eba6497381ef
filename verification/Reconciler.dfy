/** The reconcile step as the imperative code that runs against the API server. */
module Reconcilers {
  import opened Wrappers
  import opened Decimal
  import opened Api
  import opened PersistenceScaling
  import opened ReplicaScaling
  import opened Scaler

  class Reconciler {
    const client: Server
    const scaler: PersistenceScaler

    constructor (client: Server)
      ensures this.client == client && scaler.client == client
    {
      this.client := client;
      scaler := new PersistenceScaler(client);
    }

    /** Reads the StatefulSet and creates or updates it, again while the update meets a conflict. */
    method CreateOrUpdate(spec: Spec, built: int) returns (result: Verdict)
      modifies client
      ensures (client.View(), result) == WriteSts(old(client.View()), client.o, spec, built, 0)
    {
      var attempt: nat := 0;
      while true
        invariant attempt < WRITE_ATTEMPTS
        invariant WriteSts(old(client.View()), client.o, spec, built, 0) ==
                  WriteSts(client.View(), client.o, spec, built, attempt)
        decreases WRITE_ATTEMPTS - attempt
      {
        var read := client.Call();
        if read != Done {
          return Rejected;
        }
        var found := client.sts.Present?;
        var v := client.Call();
        if !found {
          if attempt > 0 || !TookEffect(v) {
            return Rejected;
          }
          client.sts := Present(Desired(spec), if built == 0 then 0 else spec.storage, false);
        } else {
          if client.sts.Absent? {
            return Rejected;
          }
          if v == Conflict && attempt + 1 < WRITE_ATTEMPTS {
            attempt := attempt + 1;
            continue;
          }
          if !TookEffect(v) || ChangesTemplate(client.sts, spec) {
            return Rejected;
          }
          client.sts := client.sts.(replicas := Desired(spec));
        }
        client.log := client.log + [WroteReplicas(Desired(spec))];
        return v;
      }
    }

    /** Expands the claims, then creates or updates the StatefulSet. */
    method FinishStep(cluster: string, spec: Spec, built: int) returns (ending: Ending, landed: bool)
      requires scaler.client == client
      modifies client
      ensures Finish(old(client.View()), client.o, cluster, spec, built) == Outcome(client.View(), ending, landed)
    {
      var err := scaler.ScaleCluster(cluster, Some(spec.replicas), built);
      if err.Some? {
        return Failed, false;
      }
      var v := CreateOrUpdate(spec, built);
      return if v == Done then Finished else Failed, TookEffect(v);
    }

    /** The step; `seen` is what the cache holds while it lags behind. */
    method ReconcileStatefulSet(cluster: string, spec: Spec, refreshed: Spec, seen: Option<Seen>)
      returns (ending: Ending, landed: bool)
      requires scaler.client == client
      modifies client
      ensures Reconcile(old(client.View()), client.o, cluster, spec, refreshed, seen) ==
              Outcome(client.View(), ending, landed)
    {
      landed := false;
      var instance := spec;
      var v := client.Call();
      if v != Done {
        ending := Failed;
        return;
      }
      var sts := if seen.Some? then seen.value.sts else client.sts;
      var annotations := if seen.Some? then seen.value.annotations else client.annotations;
      if sts.Present? {
        var current := sts.replicas;
        if ScaleToZero(current, Desired(spec)) {
          v := client.Call();
          if TookEffect(v) {
            client.annotations := client.annotations[BEFORE_ZERO := Itoa(current)];
          }
          if v != Done {
            ending := Failed;
            return;
          }
          instance := refreshed;
        } else if current > Desired(spec) {
          ending := Refused;
          return;
        }
        if ScaleFromZero(current, Desired(spec)) {
          if RestoreRefused(annotations, Desired(spec)) {
            ending := Refused;
            return;
          }
          if BEFORE_ZERO in annotations {
            v := client.Call();  // an error of this call is ignored
            if TookEffect(v) && annotations == client.annotations {
              client.annotations := client.annotations - {BEFORE_ZERO};
            }
          }
        }
      }
      ending, landed := FinishStep(cluster, instance, spec.storage);
    }
  }
}
