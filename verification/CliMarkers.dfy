/**
  Post-deploy commands. A marker annotation on an object asks for commands to be run on pods; the operator runs them
  and removes the marker. Commands can fail at any pod, and the object may be marked again or changed by others at
  any moment; the server accepts the removal only if the object is still at the version the operator read.
*/
module CliMarkers {
  import opened Wrappers
  import opened Decimal
  import opened ReplicaScaling

  /** The three markers, in the order in which their commands are run. */
  datatype Marker = PluginsUpdated | ClusterCreated | RebalanceNeeded

  datatype Command = SetPlugins(pod: nat) | EnableFeatureFlags | RebalanceQueues

  /** The commands a marker asks for, `n` being the number of replicas in the spec that was read. */
  function Job(m: Marker, n: Count): seq<Command> {
    match m
    case PluginsUpdated => seq(n, i requires 0 <= i < n => SetPlugins(i))
    case ClusterCreated => [EnableFeatureFlags]
    case RebalanceNeeded => [RebalanceQueues]
  }

  datatype StsStatus = StsStatus(replicas: Option<Count>, ready: int, currentRevision: string, updateRevision: string)

  predicate AllReplicasReadyAndUpdated(s: StsStatus) {
    s.replicas.Some? && s.ready == s.replicas.value && s.currentRevision == s.updateRevision
  }

  /** A removal records the spec and the StatefulSet its pass read, and the length of the log when the pass started. */
  datatype Event =
    | Marked(marker: Marker)
    | Changed(marker: Marker)  // the object was changed, its marker left alone
    | Recreated                // the StatefulSet, which carries `ClusterCreated`, was deleted and built anew
    | Ran(command: Command, ok: bool)
    | Cleared(marker: Marker, spec: Spec, seen: StsStatus, since: nat)

  /** What one pass read: which commands are wanted, the versions its copies have, the spec and the StatefulSet. */
  datatype Copies = Copies(wanted: map<Marker, bool>, version: map<Marker, nat>, spec: Spec, seen: StsStatus)

  /** `since` is the length of the log when the pass started. */
  datatype Runner =
    | Waiting
    | Working(copies: Copies, marker: Marker, next: nat, since: nat)

  /**
    For each marker's object, whether each of its versions carries the marker; every spec the cluster has had; the
    operator; and what happened.
  */
  datatype State = State(objects: map<Marker, seq<bool>>, specs: seq<Spec>, runner: Runner, log: seq<Event>)

  datatype Move =
    | Mark(m: Marker)                 // the marker is set on the object, by any reconcile step
    | Touch(m: Marker)                // the object is changed, its marker left alone
    | Recreate                        // the StatefulSet is deleted and built anew; marking it is a separate write
    | Edit(spec: Spec)                // the cluster's spec is changed
    | Begin(copies: Copies)
    | Exec(ok: bool)                  // the next command of the current job
    | Skip                            // the current job is not wanted
    | Clear(answered: bool)           // all commands succeeded: ask for removal of the marker
    | Stop                            // an error or a crash ends the pass

  ghost predicate WellFormed(s: State) {
    forall m: Marker :: m in s.objects && s.objects[m] != []
  }

  function Latest(s: State, m: Marker): nat
    requires m in s.objects && s.objects[m] != []
  {
    |s.objects[m]| - 1
  }

  function NextMarker(m: Marker): Option<Marker> {
    match m
    case PluginsUpdated => Some(ClusterCreated)
    case ClusterCreated => Some(RebalanceNeeded)
    case RebalanceNeeded => None
  }

  function Continue(r: Runner): Runner
    requires r.Working?
  {
    match NextMarker(r.marker)
    case Some(m) => r.(marker := m, next := 0)
    case None => Waiting
  }

  /** A copy with the marker asks for the job; feature flags may be asked for by the spec, too. */
  predicate Wants(m: Marker, carries: bool, wanted: bool) {
    (carries ==> wanted) && (wanted ==> carries || m.ClusterCreated?)
  }

  /** A pass starts only when the StatefulSet is deployed; its copies may be of any version. */
  ghost predicate Enabled(s: State, m: Move) {
    && WellFormed(s)
    && match m
       case Mark(_) => true
       case Touch(_) => true
       case Recreate => true
       case Edit(_) => true
       case Begin(c) =>
         && s.runner.Waiting? && AllReplicasReadyAndUpdated(c.seen) && c.spec in s.specs
         && forall k: Marker ::
              && k in c.wanted && k in c.version && c.version[k] < |s.objects[k]|
              && Wants(k, s.objects[k][c.version[k]], c.wanted[k])
       case Exec(_) =>
         && s.runner.Working? && s.runner.marker in s.runner.copies.wanted
         && s.runner.copies.wanted[s.runner.marker]
         && s.runner.next < |Job(s.runner.marker, s.runner.copies.spec.replicas)|
       case Skip =>
         && s.runner.Working? && s.runner.marker in s.runner.copies.wanted && !s.runner.copies.wanted[s.runner.marker]
       case Clear(_) =>
         && s.runner.Working? && s.runner.marker in s.runner.copies.wanted && s.runner.copies.wanted[s.runner.marker]
         && s.runner.next == |Job(s.runner.marker, s.runner.copies.spec.replicas)|
         && s.runner.marker in s.runner.copies.version
       case Stop => s.runner.Working?
  }

  ghost function Apply(s: State, m: Move): State
    requires Enabled(s, m)
  {
    match m
    case Mark(k) => s.(objects := s.objects[k := s.objects[k] + [true]], log := s.log + [Marked(k)])
    case Touch(k) =>
      s.(objects := s.objects[k := s.objects[k] + [s.objects[k][Latest(s, k)]]], log := s.log + [Changed(k)])
    case Recreate =>
      s.(objects := s.objects[ClusterCreated := s.objects[ClusterCreated] + [false]], log := s.log + [Recreated])
    case Edit(spec) => s.(specs := s.specs + [spec])
    case Begin(c) => s.(runner := Working(c, PluginsUpdated, 0, |s.log|))
    case Exec(ok) =>
      var log := s.log + [Ran(Job(s.runner.marker, s.runner.copies.spec.replicas)[s.runner.next], ok)];
      s.(log := log, runner := if ok then s.runner.(next := s.runner.next + 1) else Waiting)
    case Skip => s.(runner := Continue(s.runner))
    case Clear(answered) =>
      var k, c := s.runner.marker, s.runner.copies;
      var after := if answered then Continue(s.runner) else Waiting;
      if c.version[k] != Latest(s, k) then s.(runner := Waiting)  // conflict: the error ends the pass
      else
        s.(objects := s.objects[k := s.objects[k] + [false]],
           log := s.log + [Cleared(k, c.spec, c.seen, s.runner.since)], runner := after)
    case Stop => s.(runner := Waiting)
  }

  // ---- What a removed marker means ----

  /** Somebody else wrote the object of `m`. */
  predicate Writes(e: Event, m: Marker) {
    e == Marked(m) || e == Changed(m) || (m.ClusterCreated? && e.Recreated?)
  }

  /** The marker `m` is gone after this. */
  predicate Removes(e: Event, m: Marker) {
    (e.Cleared? && e.marker == m) || (m.ClusterCreated? && e.Recreated?)
  }

  /** No marking of `m` from entry `from` on. */
  ghost predicate NotMarkedSince(log: seq<Event>, m: Marker, from: nat) {
    forall i :: from <= i < |log| ==> log[i] != Marked(m)
  }

  /** Nobody else wrote the object of `m` from entry `from` on. */
  ghost predicate NotWrittenSince(log: seq<Event>, m: Marker, from: nat) {
    forall i :: from <= i < |log| ==> !Writes(log[i], m)
  }

  ghost predicate RanSince(log: seq<Event>, c: Command, from: nat) {
    exists i :: from <= i < |log| && log[i] == Ran(c, true)
  }

  /** From entry `from` on, plugins were set on no pod beyond the first `n`. */
  ghost predicate OnlyPodsBelow(log: seq<Event>, n: Count, from: nat) {
    forall i :: from <= i < |log| && log[i].Ran? && log[i].command.SetPlugins? ==> log[i].command.pod < n
  }

  /**
    Removal `j` was earned: its pass found the StatefulSet deployed, nobody wrote the object since the pass started,
    and in the pass every command of the job succeeded, and no other pod had its plugins set.
  */
  ghost predicate Earned(log: seq<Event>, j: nat)
    requires j < |log|
  {
    log[j].Cleared? ==>
      var Cleared(m, spec, seen, since) := log[j];
      && AllReplicasReadyAndUpdated(seen) && since <= j && NotWrittenSince(log[..j], m, since)
      && OnlyPodsBelow(log[..j], spec.replicas, since)
      && forall k :: 0 <= k < |Job(m, spec.replicas)| ==> RanSince(log[..j], Job(m, spec.replicas)[k], since)
  }

  /** The commands of the current job done so far succeeded in this pass, and the pass ran no others. */
  ghost predicate DoneSoFar(s: State) {
    s.runner.Working? ==>
      var c := s.runner.copies;
      && s.runner.since <= |s.log| && AllReplicasReadyAndUpdated(c.seen)
      && OnlyPodsBelow(s.log, c.spec.replicas, s.runner.since)
      && s.runner.next <= |Job(s.runner.marker, c.spec.replicas)|
      && forall k :: 0 <= k < s.runner.next ==>
           RanSince(s.log, Job(s.runner.marker, c.spec.replicas)[k], s.runner.since)
  }

  /** A pass works with a spec the cluster has had. */
  ghost predicate SpecsAreReal(s: State) {
    && (s.runner.Working? ==> s.runner.copies.spec in s.specs)
    && forall j :: 0 <= j < |s.log| && s.log[j].Cleared? ==> s.log[j].spec in s.specs
  }

  /** An object that still has the version a pass read has not been written by others since the pass began. */
  ghost predicate CurrentMeansUnwritten(s: State) {
    WellFormed(s) && s.runner.Working? ==>
      forall m: Marker ::
        && m in s.runner.copies.version && s.runner.copies.version[m] <= Latest(s, m)
        && (s.runner.copies.version[m] == Latest(s, m) ==> NotWrittenSince(s.log, m, s.runner.since))
  }

  /** What a pass wants, the copies it read ask for. */
  ghost predicate WantsAreReal(s: State) {
    WellFormed(s) && s.runner.Working? ==>
      forall m: Marker ::
        && m in s.runner.copies.version && m in s.runner.copies.wanted
        && s.runner.copies.version[m] < |s.objects[m]|
        && Wants(m, s.objects[m][s.runner.copies.version[m]], s.runner.copies.wanted[m])
  }

  ghost predicate Inv(s: State) {
    && WellFormed(s)
    && DoneSoFar(s)
    && CurrentMeansUnwritten(s) && WantsAreReal(s)
    && SpecsAreReal(s)
    && forall j :: 0 <= j < |s.log| ==> Earned(s.log, j)
  }

  lemma RanSinceExtends(log: seq<Event>, e: Event, c: Command, from: nat)
    requires RanSince(log, c, from)
    ensures RanSince(log + [e], c, from)
  {
    var i :| from <= i < |log| && log[i] == Ran(c, true);
    assert (log + [e])[i] == Ran(c, true);
  }

  lemma EarnedExtends(log: seq<Event>, e: Event)
    requires forall j :: 0 <= j < |log| ==> Earned(log, j)
    ensures forall j :: 0 <= j < |log| ==> Earned(log + [e], j)
  {
    forall j | 0 <= j < |log|
      ensures Earned(log + [e], j)
    {
      assert Earned(log, j);
      assert (log + [e])[..j] == log[..j];
    }
  }

  /** Appending an event that is no removal keeps everything earned, and the commands done. */
  lemma LogEvent(s: State, e: Event)
    requires Inv(s) && !e.Cleared?
    requires e.Ran? && e.command.SetPlugins? && s.runner.Working? ==> e.command.pod < s.runner.copies.spec.replicas
    ensures DoneSoFar(s.(log := s.log + [e]))
    ensures forall j :: 0 <= j <= |s.log| ==> Earned(s.log + [e], j)
  {
    EarnedExtends(s.log, e);
    if s.runner.Working? {
      forall k | 0 <= k < s.runner.next
        ensures RanSince(s.log + [e], Job(s.runner.marker, s.runner.copies.spec.replicas)[k], s.runner.since)
      {
        RanSinceExtends(s.log, e, Job(s.runner.marker, s.runner.copies.spec.replicas)[k], s.runner.since);
      }
    }
  }

  /** Somebody else writes an object, whatever becomes of its marker. */
  lemma WriteKeepsInv(s: State, m: Marker, carries: bool, e: Event)
    requires Inv(s) && Writes(e, m) && !e.Cleared? && !e.Ran?
    requires forall k: Marker :: Writes(e, k) ==> k == m
    ensures Inv(s.(objects := s.objects[m := s.objects[m] + [carries]], log := s.log + [e]))
  {
    LogEvent(s, e);
  }

  lemma ExecKeepsInv(s: State, ok: bool)
    requires Inv(s) && Enabled(s, Exec(ok))
    ensures Inv(Apply(s, Exec(ok)))
  {
    var c := Job(s.runner.marker, s.runner.copies.spec.replicas)[s.runner.next];
    LogEvent(s, Ran(c, ok));
    var log := s.log + [Ran(c, ok)];
    if ok {
      assert log[|s.log|] == Ran(c, true);
      assert RanSince(log, c, s.runner.since);
    }
  }

  lemma ClearKeepsInv(s: State, answered: bool)
    requires Inv(s) && Enabled(s, Clear(answered))
    ensures Inv(Apply(s, Clear(answered)))
  {
    var k, c := s.runner.marker, s.runner.copies;
    if c.version[k] == Latest(s, k) {
      var e := Cleared(k, c.spec, c.seen, s.runner.since);
      EarnedExtends(s.log, e);
      var log := s.log + [e];
      assert Earned(log, |s.log|) by {
        assert log[..|s.log|] == s.log;
        assert NotWrittenSince(s.log, k, s.runner.since);
      }
    }
  }

  lemma BeginKeepsInv(s: State, c: Copies)
    requires Inv(s) && Enabled(s, Begin(c))
    ensures Inv(Apply(s, Begin(c)))
  {
  }

  lemma ApplyKeepsInv(s: State, m: Move)
    requires Inv(s) && Enabled(s, m)
    ensures Inv(Apply(s, m))
  {
    match m
    case Mark(k) => WriteKeepsInv(s, k, true, Marked(k));
    case Touch(k) => WriteKeepsInv(s, k, s.objects[k][Latest(s, k)], Changed(k));
    case Recreate => WriteKeepsInv(s, ClusterCreated, false, Recreated);
    case Edit(_) =>
    case Begin(c) => BeginKeepsInv(s, c);
    case Exec(ok) => ExecKeepsInv(s, ok);
    case Skip =>
    case Clear(answered) => ClearKeepsInv(s, answered);
    case Stop =>
  }

  ghost predicate Reaches(s: State, moves: seq<Move>, s': State)
    decreases |moves|
  {
    if moves == [] then s == s' else Enabled(s, moves[0]) && Reaches(Apply(s, moves[0]), moves[1..], s')
  }

  lemma {:induction false} RunKeepsInv(s: State, moves: seq<Move>, s': State)
    requires Inv(s) && Reaches(s, moves, s')
    ensures Inv(s')
    decreases |moves|
  {
    if moves != [] {
      ApplyKeepsInv(s, moves[0]);
      RunKeepsInv(Apply(s, moves[0]), moves[1..], s');
    }
  }

  // ---- A marker goes only by being removed ----

  /** Whether the marker is set after the events of the log. */
  function SetAfter(log: seq<Event>, m: Marker, initially: bool): bool
    decreases |log|
  {
    if log == [] then initially
    else
      var last := log[|log| - 1];
      if last == Marked(m) then true
      else if Removes(last, m) then false
      else SetAfter(log[..|log| - 1], m, initially)
  }

  /** Each object carries its marker exactly when the log says so. */
  ghost predicate Tracks(s: State, initially: map<Marker, bool>) {
    WellFormed(s) &&
    forall m: Marker :: m in initially && s.objects[m][Latest(s, m)] == SetAfter(s.log, m, initially[m])
  }

  lemma SetAfterAppend(log: seq<Event>, e: Event, m: Marker, initially: bool)
    ensures SetAfter(log + [e], m, initially) == (e == Marked(m) || (!Removes(e, m) && SetAfter(log, m, initially)))
  {
    assert (log + [e])[..|log|] == log;
  }

  /** Writing a version of one object and logging the matching event. */
  lemma WriteTracks(s: State, k: Marker, carries: bool, e: Event, r: Runner, initially: map<Marker, bool>)
    requires Tracks(s, initially)
    requires forall m: Marker :: m != k ==> e != Marked(m) && !Removes(e, m)
    requires carries == (e == Marked(k) || (!Removes(e, k) && s.objects[k][Latest(s, k)]))
    ensures Tracks(State(s.objects[k := s.objects[k] + [carries]], s.specs, r, s.log + [e]), initially)
  {
    var s' := State(s.objects[k := s.objects[k] + [carries]], s.specs, r, s.log + [e]);
    forall m: Marker
      ensures m in s'.objects && s'.objects[m] != []
      ensures s'.objects[m][Latest(s', m)] == SetAfter(s'.log, m, initially[m])
    {
      SetAfterAppend(s.log, e, m, initially[m]);
    }
  }

  lemma ExecTracks(s: State, e: Event, r: Runner, initially: map<Marker, bool>)
    requires Tracks(s, initially) && e.Ran?
    ensures Tracks(State(s.objects, s.specs, r, s.log + [e]), initially)
  {
    forall m: Marker
      ensures SetAfter(s.log + [e], m, initially[m]) == SetAfter(s.log, m, initially[m])
    {
      SetAfterAppend(s.log, e, m, initially[m]);
    }
  }

  lemma ApplyTracks(s: State, m: Move, initially: map<Marker, bool>)
    requires Tracks(s, initially) && Enabled(s, m)
    ensures Tracks(Apply(s, m), initially)
  {
    var s' := Apply(s, m);
    match m
    case Mark(k) => WriteTracks(s, k, true, Marked(k), s.runner, initially);
    case Touch(k) => WriteTracks(s, k, s.objects[k][Latest(s, k)], Changed(k), s.runner, initially);
    case Recreate => WriteTracks(s, ClusterCreated, false, Recreated, s.runner, initially);
    case Exec(ok) => ExecTracks(s, s'.log[|s.log|], s'.runner, initially);
    case Clear(answered) =>
      var k, c := s.runner.marker, s.runner.copies;
      if c.version[k] == Latest(s, k) {
        WriteTracks(s, k, false, Cleared(k, c.spec, c.seen, s.runner.since), s'.runner, initially);
      }
    case _ =>
  }

  /** Apart from feature flags, which the spec may ask for as well, a removal removes a marker that is set. */
  ghost predicate RemovalsAreReal(log: seq<Event>, initially: map<Marker, bool>) {
    forall j :: 0 <= j < |log| && log[j].Cleared? && !log[j].marker.ClusterCreated? ==>
      log[j].marker in initially && SetAfter(log[..j], log[j].marker, initially[log[j].marker])
  }

  lemma RemovalsExtend(log: seq<Event>, e: Event, initially: map<Marker, bool>)
    requires RemovalsAreReal(log, initially)
    requires e.Cleared? && !e.marker.ClusterCreated? ==>
               e.marker in initially && SetAfter(log, e.marker, initially[e.marker])
    ensures RemovalsAreReal(log + [e], initially)
  {
    assert (log + [e])[..|log|] == log;
    assert forall j :: 0 <= j < |log| ==> (log + [e])[..j] == log[..j];
  }

  lemma ApplyRemovals(s: State, m: Move, initially: map<Marker, bool>)
    requires Inv(s) && Tracks(s, initially) && RemovalsAreReal(s.log, initially) && Enabled(s, m)
    ensures RemovalsAreReal(Apply(s, m).log, initially)
  {
    var s' := Apply(s, m);
    if s'.log != s.log {
      var e := s'.log[|s.log|];
      assert s'.log == s.log + [e];
      RemovalsExtend(s.log, e, initially);
    }
  }

  lemma {:induction false} RunTracks(s: State, moves: seq<Move>, s': State, initially: map<Marker, bool>)
    requires Inv(s) && Tracks(s, initially) && RemovalsAreReal(s.log, initially) && Reaches(s, moves, s')
    ensures Inv(s') && Tracks(s', initially) && RemovalsAreReal(s'.log, initially)
    decreases |moves|
  {
    if moves != [] {
      ApplyKeepsInv(s, moves[0]);
      ApplyTracks(s, moves[0], initially);
      ApplyRemovals(s, moves[0], initially);
      RunTracks(Apply(s, moves[0]), moves[1..], s', initially);
    }
  }

  /** After entry `i` something removed the marker, and it was not set again. */
  ghost predicate RemovedSince(log: seq<Event>, m: Marker, i: nat) {
    exists j :: i < j < |log| && Removes(log[j], m) && NotMarkedSince(log, m, j)
  }

  /** Once set, a marker is off exactly when something removed it and it was not marked since. */
  lemma {:induction false} OffIff(log: seq<Event>, m: Marker, initially: bool, i: nat)
    requires i < |log| && SetAfter(log[..i + 1], m, initially)
    ensures !SetAfter(log, m, initially) <==> RemovedSince(log, m, i)
    decreases |log|
  {
    var n := |log| - 1;
    if i == n {
      assert log[..i + 1] == log;
    } else {
      var front := log[..n];
      assert front[..i + 1] == log[..i + 1];
      OffIff(front, m, initially, i);
      OffStep(log, m, i);
    }
  }

  lemma OffStep(log: seq<Event>, m: Marker, i: nat)
    requires i < |log| - 1
    ensures var n := |log| - 1;
            RemovedSince(log, m, i) <==>
              Removes(log[n], m) || (log[n] != Marked(m) && RemovedSince(log[..n], m, i))
  {
    var n := |log| - 1;
    if Removes(log[n], m) {
      assert NotMarkedSince(log, m, n);
    } else if RemovedSince(log, m, i) {
      var j :| i < j < |log| && Removes(log[j], m) && NotMarkedSince(log, m, j);
      assert log[..n][j] == log[j] && NotMarkedSince(log[..n], m, j);
    } else if RemovedSince(log[..n], m, i) {
      var j :| i < j < n && Removes(log[..n][j], m) && NotMarkedSince(log[..n], m, j);
      assert log[j] == log[..n][j];
      assert forall k :: j <= k < n ==> log[k] == log[..n][k];
    }
  }

  /** What has to be done before a marker may go: plugins are set on the first `n` pods, else one command runs. */
  predicate Needs(m: Marker, n: Count, c: Command) {
    match m
    case PluginsUpdated => c.SetPlugins? && c.pod < n
    case ClusterCreated => c == EnableFeatureFlags
    case RebalanceNeeded => c == RebalanceQueues
  }

  /** The command succeeded at an entry in `from..to`. */
  ghost predicate RanBetween(log: seq<Event>, c: Command, from: nat, to: nat)
    requires from <= to <= |log|
  {
    exists t :: from <= t < to && log[t] == Ran(c, true)
  }

  /** The plugins were set on each of the first `n` pods. */
  ghost predicate PluginsSet(log: seq<Event>, n: Count, from: nat, to: nat)
    requires from <= to <= |log|
  {
    forall p: nat :: p < n ==> RanBetween(log, SetPlugins(p), from, to)
  }

  /**
    Removal `j` ended a pass that started after entry `i`, found the StatefulSet deployed, and ran every command the
    marker asks for.
  */
  ghost predicate DoneAfter(log: seq<Event>, m: Marker, i: nat, j: nat) {
    && i < j < |log| && log[j].Cleared? && log[j].marker == m
    && i < log[j].since <= j
    && log[j].seen.replicas.Some? && log[j].seen.ready == log[j].seen.replicas.value
    && log[j].seen.currentRevision == log[j].seen.updateRevision
    && forall c :: Needs(m, log[j].spec.replicas, c) ==> RanBetween(log, c, log[j].since, j)
  }

  lemma JobDoesWhatIsNeeded(m: Marker, n: Count, c: Command)
    ensures Needs(m, n, c) <==> c in Job(m, n)
  {
    if m.PluginsUpdated? && Needs(m, n, c) {
      assert Job(m, n)[c.pod] == c;
    }
  }

  /** An earned removal after a write of the object means the work was done in a pass that started after the write. */
  lemma EarnedMeansDone(log: seq<Event>, m: Marker, i: nat, j: nat)
    requires i < j < |log| && Writes(log[i], m) && log[j].Cleared? && log[j].marker == m && Earned(log, j)
    ensures DoneAfter(log, m, i, j)
  {
    var n, since := log[j].spec.replicas, log[j].since;
    var job := Job(m, n);
    assert i < since by {
      assert log[..j][i] == log[i];
    }
    forall c | Needs(m, n, c)
      ensures RanBetween(log, c, since, j)
    {
      JobDoesWhatIsNeeded(m, n, c);
      var k :| 0 <= k < |job| && job[k] == c;
      assert RanSince(log[..j], job[k], since);
      var t :| since <= t < |log[..j]| && log[..j][t] == Ran(c, true);
      assert log[t] == Ran(c, true);
    }
  }

  /** In the pass of an earned removal the plugins were set on the first `running` pods just if the spec counts them. */
  lemma SetOnRunningIff(log: seq<Event>, j: nat, running: Count)
    requires j < |log| && log[j].Cleared? && log[j].marker == PluginsUpdated && Earned(log, j)
    ensures PluginsSet(log, running, log[j].since, j) <==> running <= log[j].spec.replicas
  {
    var n, since := log[j].spec.replicas, log[j].since;
    if running <= n {
      forall p: nat | p < running
        ensures RanBetween(log, SetPlugins(p), since, j)
      {
        assert Job(PluginsUpdated, n)[p] == SetPlugins(p);
        assert RanSince(log[..j], SetPlugins(p), since);
        var t :| since <= t < |log[..j]| && log[..j][t] == Ran(SetPlugins(p), true);
        assert log[t] == Ran(SetPlugins(p), true);
      }
    } else {
      assert forall t :: since <= t < j ==> log[..j][t] == log[t];
      assert !RanBetween(log, SetPlugins(n), since, j);
    }
  }

  /** The run starts with nothing logged and no pass under way. */
  ghost predicate RunFrom(s: State, moves: seq<Move>, s': State) {
    WellFormed(s) && s.log == [] && s.runner.Waiting? && Reaches(s, moves, s')
  }

  function Carries(s: State, m: Marker): bool
    requires m in s.objects && s.objects[m] != []
  {
    s.objects[m][Latest(s, m)]
  }

  lemma RunIsTracked(s: State, moves: seq<Move>, s': State) returns (initially: map<Marker, bool>)
    requires RunFrom(s, moves, s')
    ensures Inv(s') && Tracks(s', initially) && RemovalsAreReal(s'.log, initially)
    ensures forall m: Marker :: m in initially && initially[m] == Carries(s, m)
  {
    initially := map k: Marker | k in s.objects :: s.objects[k][|s.objects[k]| - 1];
    RunTracks(s, moves, s', initially);
  }

  /**
    A marker that was set is gone at the end of the run exactly when, after that marking and with no other since, a pass
    that had started after the marking removed it, having run every command the marker asks for, or, for the marker
    of a new StatefulSet, the StatefulSet was recreated: failures, crashes, repeated markings and concurrent changes of
    the object notwithstanding.
  */
  lemma MarkedStepRunsBeforeMarkerGoes(s: State, moves: seq<Move>, s': State, m: Marker, i: nat)
    requires RunFrom(s, moves, s') && i < |s'.log| && s'.log[i] == Marked(m)
    ensures WellFormed(s')
    ensures !Carries(s', m) <==>
              exists j :: i < j < |s'.log| && NotMarkedSince(s'.log, m, j) &&
                (DoneAfter(s'.log, m, i, j) || (m.ClusterCreated? && s'.log[j] == Recreated))
  {
    var log := s'.log;
    var initially := RunIsTracked(s, moves, s');
    assert log[..i + 1][i] == Marked(m);
    OffIff(log, m, initially[m], i);
    forall j | i < j < |log| && log[j].Cleared? && log[j].marker == m
      ensures DoneAfter(log, m, i, j)
    {
      EarnedMeansDone(log, m, i, j);
    }
  }

  /**
    The commands of a pass that removed the plugins marker went to as many pods as its spec counts. So the plugins were
    set on every pod that ran exactly when no more pods ran than that; with the StatefulSet written from this spec,
    exactly when no override adds pods.
  */
  lemma PluginsReachRunningPodsIff(s: State, moves: seq<Move>, s': State, j: nat)
    requires RunFrom(s, moves, s')
    requires j < |s'.log| && s'.log[j].Cleared? && s'.log[j].marker == PluginsUpdated
    ensures var Cleared(_, spec, seen, since) := s'.log[j];
            && since <= j && seen.replicas.Some? && spec in s'.specs
            && var running := seen.replicas.value;
               && (PluginsSet(s'.log, running, since, j) <==> running <= spec.replicas)
               && (running == Desired(spec) ==>
                     (PluginsSet(s'.log, running, since, j) <==>
                      spec.override.None? || spec.override.value <= spec.replicas))
  {
    RunKeepsInv(s, moves, s');
    assert Earned(s'.log, j);
    SetOnRunningIff(s'.log, j, s'.log[j].seen.replicas.value);
  }

  // ---- A pass that nobody disturbs ----

  /** The copy of the marker's object is current, and asks for the job just if the object carries the marker. */
  ghost predicate Current(s: State, c: Copies, k: Marker) {
    && k in s.objects && s.objects[k] != [] && k in c.version && k in c.wanted
    && c.version[k] == Latest(s, k) && Wants(k, s.objects[k][Latest(s, k)], c.wanted[k])
  }

  lemma CurrentStays(s: State, s': State, c: Copies, k: Marker)
    requires Current(s, c, k) && k in s'.objects && s'.objects[k] == s.objects[k]
    ensures Current(s', c, k)
  {
  }

  /** A move of the pass itself, none of which fails. */
  predicate OwnMove(m: Move) {
    m == Exec(true) || m == Skip || m == Clear(true)
  }

  predicate OwnMoves(moves: seq<Move>) {
    forall i :: 0 <= i < |moves| ==> OwnMove(moves[i])
  }

  lemma {:induction false} ReachesThen(s: State, a: seq<Move>, s1: State, b: seq<Move>, s': State)
    requires Reaches(s, a, s1) && Reaches(s1, b, s')
    ensures Reaches(s, a + b, s')
    decreases |a|
  {
    if a == [] {
      assert a + b == b;
    } else {
      assert (a + b)[1..] == a[1..] + b;
      ReachesThen(Apply(s, a[0]), a[1..], s1, b, s');
    }
  }

  /** The remaining commands of the current job. */
  lemma {:induction false} RunsCommands(s: State) returns (moves: seq<Move>, s': State)
    requires WellFormed(s) && s.runner.Working? && Current(s, s.runner.copies, s.runner.marker)
    requires s.runner.copies.wanted[s.runner.marker]
    requires s.runner.next <= |Job(s.runner.marker, s.runner.copies.spec.replicas)|
    ensures Reaches(s, moves, s') && OwnMoves(moves)
    ensures s'.objects == s.objects && s'.runner.Working?
    ensures s'.runner == s.runner.(next := |Job(s.runner.marker, s.runner.copies.spec.replicas)|)
    decreases |Job(s.runner.marker, s.runner.copies.spec.replicas)| - s.runner.next
  {
    if s.runner.next == |Job(s.runner.marker, s.runner.copies.spec.replicas)| {
      moves, s' := [], s;
    } else {
      var rest, end := RunsCommands(Apply(s, Exec(true)));
      moves, s' := [Exec(true)] + rest, end;
      assert moves[1..] == rest;
    }
  }

  /** The current job, from its first command to the removal of the marker, or skipped if it is not asked for. */
  lemma RunsJob(s: State) returns (moves: seq<Move>, s': State)
    requires WellFormed(s) && s.runner.Working? && s.runner.next == 0 && Current(s, s.runner.copies, s.runner.marker)
    ensures Reaches(s, moves, s') && OwnMoves(moves) && WellFormed(s')
    ensures s'.runner == Continue(s.runner) && !Carries(s', s.runner.marker)
    ensures forall k: Marker :: k != s.runner.marker ==> k in s.objects && s'.objects[k] == s.objects[k]
  {
    var k := s.runner.marker;
    if s.runner.copies.wanted[k] {
      var commands, s1 := RunsCommands(s);
      s' := Apply(s1, Clear(true));
      moves := commands + [Clear(true)];
      assert [Clear(true)][1..] == [];
      assert Reaches(s1, [Clear(true)], s');
      ReachesThen(s, commands, s1, [Clear(true)], s');
      assert s'.objects == s.objects[k := s.objects[k] + [false]];
    } else {
      moves, s' := [Skip], Apply(s, Skip);
      assert [Skip][1..] == [];
    }
  }

  /**
    A pass that starts with current copies, whose commands succeed and which nobody disturbs, can go on to its end, with
    all three markers removed.
  */
  lemma UndisturbedPassClearsAll(s: State, c: Copies) returns (moves: seq<Move>, s': State)
    requires Enabled(s, Begin(c)) && forall k: Marker :: Current(s, c, k)
    ensures Reaches(s, [Begin(c)] + moves, s') && OwnMoves(moves)
    ensures s'.runner.Waiting? && WellFormed(s') && forall k: Marker :: !Carries(s', k)
  {
    var s0 := Apply(s, Begin(c));
    CurrentStays(s, s0, c, PluginsUpdated);
    var m1, s1 := RunsJob(s0);
    CurrentStays(s, s1, c, ClusterCreated);
    var m2, s2 := RunsJob(s1);
    CurrentStays(s, s2, c, RebalanceNeeded);
    var m3;
    m3, s' := RunsJob(s2);
    ReachesThen(s0, m1, s1, m2, s2);
    ReachesThen(s0, m1 + m2, s2, m3, s');
    moves := m1 + m2 + m3;
    assert ([Begin(c)] + moves)[1..] == moves;
    forall k: Marker
      ensures !Carries(s', k)
    {
      match k {
        case PluginsUpdated =>
        case ClusterCreated =>
        case RebalanceNeeded =>
      }
    }
  }

  // ---- Whether a change is acted upon ----

  /** A marker that nothing sets between two points was set before if it is set after. */
  lemma {:induction false} SetBefore(log: seq<Event>, m: Marker, initially: bool, k: nat)
    requires k <= |log| && NotMarkedSince(log, m, k) && SetAfter(log, m, initially)
    ensures SetAfter(log[..k], m, initially)
    decreases |log|
  {
    if k == |log| {
      assert log[..k] == log;
    } else {
      var front := log[..|log| - 1];
      assert front[..k] == log[..k];
      SetBefore(front, m, initially, k);
    }
  }

  /** The marker is set after entry `i` and off at the end: some pass did the work. */
  lemma SetMeansActedUpon(log: seq<Event>, m: Marker, initially: bool, i: nat)
    requires i < |log| && Writes(log[i], m) && !m.ClusterCreated? && (forall j :: 0 <= j < |log| ==> Earned(log, j))
    requires SetAfter(log[..i + 1], m, initially) && !SetAfter(log, m, initially)
    ensures exists j :: DoneAfter(log, m, i, j)
  {
    OffIff(log, m, initially, i);
    var j :| i < j < |log| && Removes(log[j], m) && NotMarkedSince(log, m, j);
    EarnedMeansDone(log, m, i, j);
  }

  /** Work done after entry `i`, with no marking in between, was asked for at entry `i`. */
  lemma ActedUponMeansSet(log: seq<Event>, m: Marker, initially: map<Marker, bool>, i: nat, j: nat)
    requires !m.ClusterCreated? && m in initially && RemovalsAreReal(log, initially)
    requires i < |log| && NotMarkedSince(log, m, i + 1) && DoneAfter(log, m, i, j)
    ensures SetAfter(log[..i + 1], m, initially[m])
  {
    assert log[..j][..i + 1] == log[..i + 1];
    SetBefore(log[..j], m, initially[m], i + 1);
  }

  /**
    An object is changed by one write and marked by another, which may fail. Once the marker is gone, with no marking
    after the change, a pass that started after the change has done what the marker asks for exactly when the change
    itself was marked or an earlier marking was still standing.
  */
  lemma ChangeIsActedUponIff(s: State, moves: seq<Move>, s': State, m: Marker, i: nat)
    requires RunFrom(s, moves, s') && !m.ClusterCreated?
    requires i < |s'.log| && Writes(s'.log[i], m) && NotMarkedSince(s'.log, m, i + 1)
    requires m in s'.objects && s'.objects[m] != [] && !Carries(s', m)
    ensures (exists j :: DoneAfter(s'.log, m, i, j)) <==>
              s'.log[i] == Marked(m) || SetAfter(s'.log[..i], m, Carries(s, m))
  {
    var log := s'.log;
    var initially := RunIsTracked(s, moves, s');
    assert log[..i + 1] == log[..i] + [log[i]];
    SetAfterAppend(log[..i], log[i], m, initially[m]);
    if SetAfter(log[..i + 1], m, initially[m]) {
      SetMeansActedUpon(log, m, initially[m], i);
    } else if j :| DoneAfter(log, m, i, j) {
      ActedUponMeansSet(log, m, initially, i, j);
    }
  }

  function Unmarked(): map<Marker, seq<bool>> {
    map[PluginsUpdated := [false], ClusterCreated := [false], RebalanceNeeded := [false]]
  }

  lemma UnmarkedIsWellFormed(k: Marker)
    ensures k in Unmarked() && Unmarked()[k] == [false]
  {
    match k
    case PluginsUpdated =>
    case ClusterCreated =>
    case RebalanceNeeded =>
  }

  /** When the StatefulSet is recreated and its new marking fails, the marker is gone and no command was run. */
  lemma RecreationLosesMark(specs: seq<Spec>) returns (s: State, s': State)
    ensures RunFrom(s, [Mark(ClusterCreated), Recreate], s')
    ensures s'.log == [Marked(ClusterCreated), Recreated]
    ensures ClusterCreated in s'.objects && s'.objects[ClusterCreated] == [false, true, false]
  {
    s := State(Unmarked(), specs, Waiting, []);
    forall k: Marker
      ensures k in s.objects && s.objects[k] == [false]
    {
      UnmarkedIsWellFormed(k);
    }
    var moves := [Mark(ClusterCreated), Recreate];
    var s1 := Apply(s, moves[0]);
    s' := Apply(s1, moves[1]);
    assert moves[1..] == [Recreate] && moves[1..][1..] == [];
    assert Reaches(s1, moves[1..], s');
  }

  /** A pass over a StatefulSet of `n` ready pods that wants the plugins set, or nothing. */
  function Pass(spec: Spec, n: Count, plugins: bool): Copies {
    Copies(map[PluginsUpdated := plugins, ClusterCreated := false, RebalanceNeeded := false],
           map[PluginsUpdated := 1, ClusterCreated := 0, RebalanceNeeded := 0], spec, StsStatus(Some(n), n, "", ""))
  }

  /** The second version of the plugins' object is the one the pass reads. */
  lemma PassMayBegin(s: State, spec: Spec, n: Count, plugins: bool)
    requires s.objects == Unmarked()[PluginsUpdated := [false, plugins]] && s.runner.Waiting? && spec in s.specs
    ensures Enabled(s, Begin(Pass(spec, n, plugins)))
  {
    var c := Pass(spec, n, plugins);
    forall k: Marker
      ensures k in s.objects && s.objects[k] != [] && k in c.wanted && k in c.version
      ensures c.version[k] < |s.objects[k]| && Wants(k, s.objects[k][c.version[k]], c.wanted[k])
    {
      UnmarkedIsWellFormed(k);
      match k
      case PluginsUpdated =>
      case ClusterCreated =>
      case RebalanceNeeded =>
    }
  }

  /** A pass that wants nothing does nothing. */
  lemma IdlePass(s: State) returns (s': State)
    requires WellFormed(s) && s.runner.Working? && s.runner.marker == PluginsUpdated
    requires forall k: Marker :: k in s.runner.copies.wanted && !s.runner.copies.wanted[k]
    ensures Reaches(s, [Skip, Skip, Skip], s') && s'.log == s.log && s'.runner.Waiting?
  {
    var s1 := Apply(s, Skip);
    var s2 := Apply(s1, Skip);
    s' := Apply(s2, Skip);
    assert [Skip][1..] == [] && Reaches(s2, [Skip], s');
    assert [Skip, Skip][1..] == [Skip] && Reaches(s1, [Skip, Skip], s');
    assert [Skip, Skip, Skip][1..] == [Skip, Skip];
  }

  /** A changed list of plugins whose marking fails is not set on the running pods by a pass that reads it. */
  lemma LostMarkIsReal(spec: Spec, n: Count) returns (s: State, s': State)
    ensures RunFrom(s, [Touch(PluginsUpdated), Begin(Pass(spec, n, false)), Skip, Skip, Skip], s')
    ensures s'.log == [Changed(PluginsUpdated)] && s'.runner.Waiting?
  {
    s := State(Unmarked(), [spec], Waiting, []);
    forall k: Marker
      ensures k in s.objects && s.objects[k] == [false]
    {
      UnmarkedIsWellFormed(k);
    }
    var c := Pass(spec, n, false);
    var s1 := Apply(s, Touch(PluginsUpdated));
    assert [false] + [false] == [false, false];
    PassMayBegin(s1, spec, n, false);
    forall k: Marker
      ensures k in c.wanted && !c.wanted[k]
    {
      UnmarkedIsWellFormed(k);
      match k
      case PluginsUpdated =>
      case ClusterCreated =>
      case RebalanceNeeded =>
    }
    s' := IdlePass(Apply(s1, Begin(c)));
    var moves := [Begin(c), Skip, Skip, Skip];
    assert moves[1..] == [Skip, Skip, Skip] && Reaches(s1, moves, s');
    assert ([Touch(PluginsUpdated)] + moves)[1..] == moves;
    assert [Touch(PluginsUpdated)] + moves == [Touch(PluginsUpdated), Begin(c), Skip, Skip, Skip];
  }

  /** With replicas overridden from 1 to `n`, the marker goes although the plugins were set on pod 0 only. */
  lemma OverrideLeavesPodsUnset(n: Count) returns (s: State, s': State)
    requires n > 1
    ensures var spec := Spec(1, Some(n), 0);
            var c := Pass(spec, n, true);
            && RunFrom(s, [Mark(PluginsUpdated), Begin(c), Exec(true), Clear(true)], s') && s.specs == [spec]
            && s'.log == [Marked(PluginsUpdated), Ran(SetPlugins(0), true), Cleared(PluginsUpdated, spec, c.seen, 1)]
            && PluginsUpdated in s'.objects && s'.objects[PluginsUpdated] == [false, true, false]
  {
    var spec := Spec(1, Some(n), 0);
    var c := Pass(spec, n, true);
    s := State(Unmarked(), [spec], Waiting, []);
    forall k: Marker
      ensures k in s.objects && s.objects[k] == [false]
    {
      UnmarkedIsWellFormed(k);
    }
    var s1 := Apply(s, Mark(PluginsUpdated));
    assert [false] + [true] == [false, true];
    PassMayBegin(s1, spec, n, true);
    var s2 := Apply(s1, Begin(c));
    var s3 := Apply(s2, Exec(true));
    s' := Apply(s3, Clear(true));
    assert [Clear(true)][1..] == [] && Reaches(s3, [Clear(true)], s');
    assert [Exec(true), Clear(true)][1..] == [Clear(true)] && Reaches(s2, [Exec(true), Clear(true)], s');
    var moves := [Begin(c), Exec(true), Clear(true)];
    assert moves[1..] == [Exec(true), Clear(true)] && Reaches(s1, moves, s');
    assert ([Mark(PluginsUpdated)] + moves)[1..] == moves;
    assert [Mark(PluginsUpdated)] + moves == [Mark(PluginsUpdated), Begin(c), Exec(true), Clear(true)];
  }

  lemma RanSinceLater(before: seq<Event>, log: seq<Event>, c: Command, from: nat)
    requires before <= log && RanSince(before, c, from)
    ensures RanSince(log, c, from)
  {
    var t :| from <= t < |before| && before[t] == Ran(c, true);
    assert log[t] == Ran(c, true);
  }

  /** Command `f` of the job is the first to fail, and the last event. */
  ghost predicate StoppedAt(log: seq<Event>, since: nat, job: seq<Command>, succeeds: nat -> bool, f: nat) {
    && f < |job| && !succeeds(f) && since < |log| && log[|log| - 1] == Ran(job[f], false)
    && forall k: nat :: k < f ==> succeeds(k) && RanSince(log, job[k], since)
  }

  ghost predicate StoppedAtFailure(log: seq<Event>, since: nat, job: seq<Command>, succeeds: nat -> bool) {
    exists f: nat :: StoppedAt(log, since, job, succeeds, f)
  }

  lemma UnwrittenBefore(before: seq<Event>, log: seq<Event>, m: Marker, since: nat)
    requires before <= log && NotWrittenSince(log, m, since)
    ensures NotWrittenSince(before, m, since)
  {
  }

  // ---- One job as the code runs it, others marking and changing the object between its steps ----

  class MarkedObject {
    const marker: Marker
    var versions: seq<bool>
    var log: seq<Event>

    constructor (marker: Marker, carries: bool)
      ensures this.marker == marker && versions == [carries] && log == []
    {
      this.marker := marker;
      versions := [carries];
      log := [];
    }

    /** Others may set the marker, change the object or, if it is the StatefulSet, recreate it, any number of times. */
    method Interleave()
      requires versions != []
      modifies this
      ensures old(versions) <= versions && old(log) <= log
      ensures forall k :: |old(log)| <= k < |log| ==> Writes(log[k], marker) && !log[k].Ran? && !log[k].Cleared?
      ensures |log| - |old(log)| == |versions| - |old(versions)|
    {
      var times: int :| times >= 0;
      for t := 0 to times
        invariant old(versions) <= versions && old(log) <= log
        invariant forall k :: |old(log)| <= k < |log| ==> Writes(log[k], marker) && !log[k].Ran? && !log[k].Cleared?
        invariant |log| - |old(log)| == |versions| - |old(versions)|
      {
        var mark: bool, recreate: bool := *, *;
        if mark {
          versions := versions + [true];
          log := log + [Marked(marker)];
        } else if recreate && marker.ClusterCreated? {
          versions := versions + [false];
          log := log + [Recreated];
        } else {
          versions := versions + [versions[|versions| - 1]];
          log := log + [Changed(marker)];
        }
      }
    }

    /** Runs the commands on the pods, until one fails; `succeeds` says which ones do. */
    method RunCommands(spec: Spec, version: nat, succeeds: nat -> bool) returns (ok: bool)
      requires version < |versions|
      modifies this
      ensures old(versions) <= versions && old(log) <= log
      ensures forall k :: |old(log)| <= k < |log| ==> !log[k].Cleared?
      ensures version == |versions| - 1 ==> NotWrittenSince(log, marker, |old(log)|)
      ensures NotWrittenSince(log, marker, |old(log)|) ==> versions == old(versions)
      ensures OnlyPodsBelow(log, spec.replicas, |old(log)|)
      ensures ok <==> forall k: nat :: k < |Job(marker, spec.replicas)| ==> succeeds(k)
      ensures ok ==> forall c :: c in Job(marker, spec.replicas) ==> RanSince(log, c, |old(log)|)
      ensures !ok ==> StoppedAtFailure(log, |old(log)|, Job(marker, spec.replicas), succeeds)
    {
      ghost var since := |log|;
      var job := Job(marker, spec.replicas);
      for i := 0 to |job|
        invariant old(versions) <= versions && old(log) <= log && since == |old(log)| && version < |versions|
        invariant forall k :: since <= k < |log| ==> !log[k].Cleared?
        invariant version == |versions| - 1 ==> NotWrittenSince(log, marker, since)
        invariant NotWrittenSince(log, marker, since) ==> versions == old(versions)
        invariant OnlyPodsBelow(log, spec.replicas, since)
        invariant forall k: nat :: k < i ==> succeeds(k) && RanSince(log, job[k], since)
      {
        ghost var before := log;
        Interleave();
        ghost var written := |log| > |before|;
        log := log + [Ran(job[i], succeeds(i))];
        assert written ==> Writes(log[|before|], marker);
        assert log[|log| - 1] == Ran(job[i], succeeds(i));
        forall k: nat | k < i
          ensures RanSince(log, job[k], since)
        {
          RanSinceLater(before, log, job[k], since);
        }
        if NotWrittenSince(log, marker, since) {
          UnwrittenBefore(before, log, marker, since);
        }
        if !succeeds(i) {
          assert StoppedAt(log, since, job, succeeds, i);
          return false;
        }
      }
      return true;
    }

    /**
      Runs the job on a copy of some version; stops at the first failure; finally removes the marker. The server may
      refuse the removal, or its reply may be lost.
    */
    method RunJob(spec: Spec, seen: StsStatus, version: nat, succeeds: nat -> bool, accepts: bool, answered: bool)
      returns (ok: bool)
      requires version < |versions| && AllReplicasReadyAndUpdated(seen)
      modifies this
      ensures old(versions) <= versions && old(log) <= log
      ensures forall k :: |old(log)| <= k < |log| && log[k].Cleared? ==>
                k == |log| - 1 && Earned(log, k) && log[k] == Cleared(marker, spec, seen, |old(log)|)
      ensures ok ==> |log| > |old(log)| && log[|log| - 1].Cleared?
      ensures var all := forall k: nat :: k < |Job(marker, spec.replicas)| ==> succeeds(k);
              && (all && accepts && version == |old(versions)| - 1 && NotWrittenSince(log, marker, |old(log)|) ==>
                    |log| > |old(log)| && log[|log| - 1].Cleared? && ok == answered)
              && (!all ==> !ok && StoppedAtFailure(log, |old(log)|, Job(marker, spec.replicas), succeeds))
    {
      var since := |log|;
      var succeeded := RunCommands(spec, version, succeeds);
      if !succeeded {
        return false;
      }
      ghost var before := log;
      Interleave();
      if version == |versions| - 1 && accepts {
        assert log == before;
        versions := versions + [false];
        log := log + [Cleared(marker, spec, seen, since)];
        assert log[..|log| - 1] == before;
        ok := answered;
      } else {
        ok := false;
      }
    }
  }
}
