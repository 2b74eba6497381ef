/**
  Two layers look at a pod-spec override: the admission check, which lists forbidden settings, and the normaliser,
  which rewrites them at reconcile time.
*/
module PodSpecOverride {
  import opened Wrappers

  /** Go distinguishes a nil slice from an empty one. */
  datatype Capabilities = Capabilities(add: Option<seq<string>>, drop: Option<seq<string>>)

  datatype SecurityContext = SecurityContext(
    privileged: Option<bool>,
    allowPrivilegeEscalation: Option<bool>,
    runAsUser: Option<int>,
    runAsNonRoot: Option<bool>,
    readOnlyRootFilesystem: Option<bool>,
    capabilities: Option<Capabilities>,
    rest: string)

  datatype Container = Container(name: string, securityContext: Option<SecurityContext>, rest: string)

  datatype Volume = Volume(name: string, hostPath: Option<string>, rest: string)

  datatype PodSpec = PodSpec(
    hostPID: bool,
    hostNetwork: bool,
    hostIPC: bool,
    serviceAccountName: string,
    volumes: seq<Volume>,
    containers: seq<Container>,
    initContainers: seq<Container>,
    rest: string)

  // ---- The normaliser ----

  function SanitizeContext(sc: SecurityContext): SecurityContext {
    sc.(privileged := if sc.privileged.Some? && sc.privileged.value then Some(false) else sc.privileged,
        allowPrivilegeEscalation :=
          if sc.allowPrivilegeEscalation.Some? && sc.allowPrivilegeEscalation.value then Some(false)
          else sc.allowPrivilegeEscalation,
        runAsUser := if sc.runAsUser == Some(0) then None else sc.runAsUser,
        runAsNonRoot := if sc.runAsNonRoot.Some? && !sc.runAsNonRoot.value then Some(true) else sc.runAsNonRoot,
        capabilities := if sc.capabilities.Some? then Some(sc.capabilities.value.(add := None)) else None,
        readOnlyRootFilesystem := if sc.readOnlyRootFilesystem.Some? then Some(true) else None)
  }

  function SanitizeContainer(c: Container): Container {
    if c.securityContext.None? then c else c.(securityContext := Some(SanitizeContext(c.securityContext.value)))
  }

  function SanitizeContainers(cs: seq<Container>): (r: seq<Container>)
    ensures |r| == |cs| && forall i :: 0 <= i < |cs| ==> r[i] == SanitizeContainer(cs[i])
  {
    seq(|cs|, i requires 0 <= i < |cs| => SanitizeContainer(cs[i]))
  }

  function WithoutHostPaths(vs: seq<Volume>): seq<Volume> {
    if vs == [] then []
    else
      var last := vs[|vs| - 1];
      WithoutHostPaths(vs[..|vs| - 1]) + if last.hostPath.Some? then [] else [last]
  }

  function Sanitized(p: PodSpec): PodSpec {
    PodSpec(false, false, false, "", WithoutHostPaths(p.volumes),
            SanitizeContainers(p.containers), SanitizeContainers(p.initContainers), p.rest)
  }

  /** The override as the object the reconciler rewrites; the volumes are the first `volumeCount` of an array. */
  class Override {
    var hostPID: bool
    var hostNetwork: bool
    var hostIPC: bool
    var serviceAccountName: string
    var volumes: array<Volume>
    var volumeCount: nat
    var containers: array<Container>
    var initContainers: array<Container>
    var rest: string

    constructor (volumes: array<Volume>, containers: array<Container>, initContainers: array<Container>, p: PodSpec)
      requires volumes[..] == p.volumes && containers[..] == p.containers && initContainers[..] == p.initContainers
      requires containers != initContainers
      ensures Valid() && View() == p
    {
      hostPID, hostNetwork, hostIPC := p.hostPID, p.hostNetwork, p.hostIPC;
      serviceAccountName := p.serviceAccountName;
      this.volumes, volumeCount := volumes, volumes.Length;
      this.containers, this.initContainers := containers, initContainers;
      rest := p.rest;
    }

    predicate Valid()
      reads this
    {
      volumeCount <= volumes.Length && containers != initContainers
    }

    ghost function View(): PodSpec
      requires Valid()
      reads this, volumes, containers, initContainers
    {
      PodSpec(hostPID, hostNetwork, hostIPC, serviceAccountName, volumes[..volumeCount],
              containers[..], initContainers[..], rest)
    }

    method Sanitize()
      requires Valid()
      modifies this, volumes, containers, initContainers
      ensures Valid() && unchanged(`volumes, `containers, `initContainers)
      ensures View() == Sanitized(old(View()))
    {
      hostPID, hostNetwork, hostIPC, serviceAccountName := false, false, false, "";
      CompactVolumes();
      SanitizeInPlace(containers);
      SanitizeInPlace(initContainers);
    }

    /** Removes hostPath volumes, reusing the array. */
    method CompactVolumes()
      requires Valid()
      modifies this`volumeCount, volumes
      ensures volumeCount <= volumes.Length
      ensures volumes[..volumeCount] == WithoutHostPaths(old(volumes[..volumeCount]))
    {
      ghost var before := volumes[..volumeCount];
      var k := 0;
      for i := 0 to volumeCount
        invariant k <= i && volumeCount == |before|
        invariant volumes[..k] == WithoutHostPaths(before[..i])
        invariant forall j :: i <= j < volumeCount ==> volumes[j] == before[j]
      {
        ghost var kept := volumes[..k];
        assert before[..i + 1][..i] == before[..i];
        var v := volumes[i];
        if v.hostPath.None? {
          volumes[k] := v;
          k := k + 1;
          assert volumes[..k] == kept + [v];
        }
      }
      assert before[..|before|] == before;
      volumeCount := k;
    }

    static method SanitizeInPlace(cs: array<Container>)
      modifies cs
      ensures cs[..] == SanitizeContainers(old(cs[..]))
    {
      for i := 0 to cs.Length
        invariant forall j :: 0 <= j < i ==> cs[j] == SanitizeContainer(old(cs[j]))
        invariant forall j :: i <= j < cs.Length ==> cs[j] == old(cs[j])
      {
        if cs[i].securityContext.Some? {
          cs[i] := cs[i].(securityContext := Some(SanitizeContext(cs[i].securityContext.value)));
        }
      }
    }
  }

  // ---- The admission check ----

  datatype Setting =
    | Privileged | AllowPrivilegeEscalation | RunAsUserZero | RunAsNonRootFalse | ReadOnlyRootFilesystemFalse
    | AddedCapabilities

  datatype Violation =
    | HostPID | HostNetwork | HostIPC | ServiceAccountName
    | HostPathVolume(index: nat)
    | InContainer(initContainer: bool, index: nat, setting: Setting)

  predicate Sets(sc: SecurityContext, s: Setting) {
    match s
    case Privileged => sc.privileged.Some? && sc.privileged.value
    case AllowPrivilegeEscalation => sc.allowPrivilegeEscalation.Some? && sc.allowPrivilegeEscalation.value
    case RunAsUserZero => sc.runAsUser == Some(0)
    case RunAsNonRootFalse => sc.runAsNonRoot.Some? && !sc.runAsNonRoot.value
    case ReadOnlyRootFilesystemFalse => sc.readOnlyRootFilesystem.Some? && !sc.readOnlyRootFilesystem.value
    case AddedCapabilities => sc.capabilities.Some? && sc.capabilities.value.add.Some?
  }

  /** Whether the override has the forbidden setting that the violation names. */
  predicate Violates(p: PodSpec, v: Violation) {
    match v
    case HostPID => p.hostPID
    case HostNetwork => p.hostNetwork
    case HostIPC => p.hostIPC
    case ServiceAccountName => p.serviceAccountName != ""
    case HostPathVolume(i) => i < |p.volumes| && p.volumes[i].hostPath.Some?
    case InContainer(initContainer, i, s) =>
      var cs := if initContainer then p.initContainers else p.containers;
      i < |cs| && cs[i].securityContext.Some? && Sets(cs[i].securityContext.value, s)
  }

  const SETTINGS: seq<Setting> :=
    [Privileged, AllowPrivilegeEscalation, RunAsUserZero, RunAsNonRootFalse, ReadOnlyRootFilesystemFalse,
     AddedCapabilities]

  lemma SettingsAreAll(s: Setting)
    ensures s in SETTINGS
  {
  }

  /** The violations of one list of containers, in order. */
  method CheckContainers(cs: seq<Container>, initContainer: bool) returns (errs: seq<Violation>)
    ensures forall v :: v in errs <==>
              && v.InContainer? && v.initContainer == initContainer && v.index < |cs|
              && cs[v.index].securityContext.Some? && Sets(cs[v.index].securityContext.value, v.setting)
  {
    errs := [];
    for i := 0 to |cs|
      invariant forall v :: v in errs <==>
                  && v.InContainer? && v.initContainer == initContainer && v.index < i
                  && cs[v.index].securityContext.Some? && Sets(cs[v.index].securityContext.value, v.setting)
    {
      if cs[i].securityContext.Some? {
        var sc := cs[i].securityContext.value;
        for j := 0 to |SETTINGS|
          invariant forall v :: v in errs <==>
                      && v.InContainer? && v.initContainer == initContainer
                      && (|| (v.index < i && cs[v.index].securityContext.Some? &&
                              Sets(cs[v.index].securityContext.value, v.setting))
                          || (v.index == i && v.setting in SETTINGS[..j] && Sets(sc, v.setting)))
        {
          assert SETTINGS[..j + 1] == SETTINGS[..j] + [SETTINGS[j]];
          if Sets(sc, SETTINGS[j]) {
            errs := errs + [InContainer(initContainer, i, SETTINGS[j])];
          }
        }
        assert SETTINGS[..|SETTINGS|] == SETTINGS;
        forall s
          ensures s in SETTINGS
        {
          SettingsAreAll(s);
        }
      }
    }
  }

  /** The admission check of an optional override: the list names exactly the forbidden settings. */
  method ValidatePodSpecOverride(override: Option<PodSpec>) returns (errs: seq<Violation>)
    ensures override.None? ==> errs == []
    ensures override.Some? ==> forall v :: v in errs <==> Violates(override.value, v)
  {
    errs := [];
    if override.None? {
      return;
    }
    var p := override.value;
    if p.hostPID { errs := errs + [HostPID]; }
    if p.hostNetwork { errs := errs + [HostNetwork]; }
    if p.hostIPC { errs := errs + [HostIPC]; }
    if p.serviceAccountName != "" { errs := errs + [ServiceAccountName]; }
    ghost var start := errs;
    for i := 0 to |p.volumes|
      invariant forall v :: v in errs <==>
                  v in start || (v.HostPathVolume? && v.index < i && p.volumes[v.index].hostPath.Some?)
    {
      if p.volumes[i].hostPath.Some? {
        errs := errs + [HostPathVolume(i)];
      }
    }
    var inContainers := CheckContainers(p.containers, false);
    var inInitContainers := CheckContainers(p.initContainers, true);
    errs := errs + inContainers + inInitContainers;
  }

  /** The check accepts: no setting is forbidden. */
  ghost predicate Accepted(p: PodSpec) {
    forall v :: !Violates(p, v)
  }

  /** The two contexts agree on the field a setting is about. */
  predicate SameField(a: SecurityContext, b: SecurityContext, s: Setting) {
    match s
    case Privileged => a.privileged == b.privileged
    case AllowPrivilegeEscalation => a.allowPrivilegeEscalation == b.allowPrivilegeEscalation
    case RunAsUserZero => a.runAsUser == b.runAsUser
    case RunAsNonRootFalse => a.runAsNonRoot == b.runAsNonRoot
    case ReadOnlyRootFilesystemFalse => a.readOnlyRootFilesystem == b.readOnlyRootFilesystem
    case AddedCapabilities => a.capabilities == b.capabilities
  }

  /** The field a setting is about has the value the normaliser puts in place of a forbidden one. */
  predicate Replaced(t: SecurityContext, s: Setting) {
    match s
    case Privileged => t.privileged == Some(false)
    case AllowPrivilegeEscalation => t.allowPrivilegeEscalation == Some(false)
    case RunAsUserZero => t.runAsUser == None
    case RunAsNonRootFalse => t.runAsNonRoot == Some(true)
    case ReadOnlyRootFilesystemFalse => t.readOnlyRootFilesystem == Some(true)
    case AddedCapabilities => t.capabilities.Some? && t.capabilities.value.add == None
  }

  /** The normaliser rewrites exactly the fields the admission check complains about, and to which values. */
  lemma RewritesExactlyViolations(sc: SecurityContext, s: Setting)
    ensures SameField(sc, SanitizeContext(sc), s) <==> !Sets(sc, s)
    ensures Sets(sc, s) ==> Replaced(SanitizeContext(sc), s)
    ensures SanitizeContext(sc).rest == sc.rest
    ensures sc.capabilities.Some? ==>
              SanitizeContext(sc).capabilities.Some? &&
              SanitizeContext(sc).capabilities.value.drop == sc.capabilities.value.drop
  {
    if s.AddedCapabilities? && sc.capabilities.Some? {
      var c := sc.capabilities.value;
      assert c.(add := None) == c <==> c.add.None?;
    }
  }

  /** Of a container only the security context is rewritten. */
  predicate KeepsRest(c: Container, d: Container) {
    && d.name == c.name && d.rest == c.rest && (c.securityContext.None? <==> d.securityContext.None?)
    && (c.securityContext.Some? ==> d.securityContext.value == SanitizeContext(c.securityContext.value))
  }

  /** What the normaliser makes of the whole override. */
  lemma SanitizedKeepsRest(p: PodSpec)
    ensures var q := Sanitized(p);
            && !q.hostPID && !q.hostNetwork && !q.hostIPC && q.serviceAccountName == "" && q.rest == p.rest
            && |q.containers| == |p.containers| && |q.initContainers| == |p.initContainers|
            && (forall i :: 0 <= i < |p.containers| ==> KeepsRest(p.containers[i], q.containers[i]))
            && (forall i :: 0 <= i < |p.initContainers| ==> KeepsRest(p.initContainers[i], q.initContainers[i]))
  {
  }

  // ---- The two layers agree ----

  lemma {:induction false} NoHostPathMeansUnchanged(vs: seq<Volume>)
    ensures |WithoutHostPaths(vs)| <= |vs|
    ensures WithoutHostPaths(vs) == vs <==> forall i :: 0 <= i < |vs| ==> vs[i].hostPath.None?
    decreases |vs|
  {
    if vs != [] {
      var n := |vs| - 1;
      NoHostPathMeansUnchanged(vs[..n]);
      assert vs == vs[..n] + [vs[n]];
      if vs[n].hostPath.Some? {
        assert |WithoutHostPaths(vs)| < |vs|;
      } else {
        assert WithoutHostPaths(vs) == vs <==> WithoutHostPaths(vs[..n]) == vs[..n];
      }
    }
  }

  lemma ContainerUnchanged(c: Container)
    ensures SanitizeContainer(c) == c <==>
              forall s :: c.securityContext.Some? ==> !Sets(c.securityContext.value, s)
  {
    if c.securityContext.Some? {
      var sc := c.securityContext.value;
      if forall s :: !Sets(sc, s) {
        assert !Sets(sc, Privileged) && !Sets(sc, AllowPrivilegeEscalation) && !Sets(sc, RunAsUserZero);
        assert !Sets(sc, RunAsNonRootFalse) && !Sets(sc, ReadOnlyRootFilesystemFalse) && !Sets(sc, AddedCapabilities);
        assert sc.capabilities.Some? ==> sc.capabilities.value.(add := None) == sc.capabilities.value;
        assert SanitizeContext(sc) == sc;
      }
    }
  }

  lemma ContainersUnchanged(cs: seq<Container>)
    ensures SanitizeContainers(cs) == cs <==>
              forall i, s :: 0 <= i < |cs| && cs[i].securityContext.Some? ==> !Sets(cs[i].securityContext.value, s)
  {
    forall i | 0 <= i < |cs|
      ensures SanitizeContainers(cs)[i] == cs[i] <==>
                forall s :: cs[i].securityContext.Some? ==> !Sets(cs[i].securityContext.value, s)
    {
      ContainerUnchanged(cs[i]);
    }
  }

  /** The admission check accepts an override exactly when the normaliser leaves it unchanged. */
  lemma AcceptedIffUnchanged(p: PodSpec)
    ensures Accepted(p) <==> Sanitized(p) == p
  {
    NoHostPathMeansUnchanged(p.volumes);
    ContainersUnchanged(p.containers);
    ContainersUnchanged(p.initContainers);
    if Accepted(p) {
      assert !Violates(p, HostPID) && !Violates(p, HostNetwork);
      assert !Violates(p, HostIPC) && !Violates(p, ServiceAccountName);
      forall i | 0 <= i < |p.volumes|
        ensures p.volumes[i].hostPath.None?
      {
        assert !Violates(p, HostPathVolume(i));
      }
      forall i, s | 0 <= i < |p.containers| && p.containers[i].securityContext.Some?
        ensures !Sets(p.containers[i].securityContext.value, s)
      {
        assert !Violates(p, InContainer(false, i, s));
      }
      forall i, s | 0 <= i < |p.initContainers| && p.initContainers[i].securityContext.Some?
        ensures !Sets(p.initContainers[i].securityContext.value, s)
      {
        assert !Violates(p, InContainer(true, i, s));
      }
    }
  }

  lemma {:induction false} FilterIsIdempotent(vs: seq<Volume>)
    ensures forall i :: 0 <= i < |WithoutHostPaths(vs)| ==> WithoutHostPaths(vs)[i].hostPath.None?
    decreases |vs|
  {
    if vs != [] {
      FilterIsIdempotent(vs[..|vs| - 1]);
    }
  }

  /** The normaliser's output is always accepted, so normalising again changes nothing. */
  lemma SanitizedIsAccepted(p: PodSpec)
    ensures Accepted(Sanitized(p)) && Sanitized(Sanitized(p)) == Sanitized(p)
  {
    FilterIsIdempotent(p.volumes);
    AcceptedIffUnchanged(Sanitized(p));
  }

  /** The positions of the volumes without a host path. */
  function KeptPositions(vs: seq<Volume>): seq<nat> {
    if vs == [] then []
    else
      var n := |vs| - 1;
      KeptPositions(vs[..n]) + if vs[n].hostPath.Some? then [] else [n]
  }

  lemma {:induction false} KeptPositionsIncrease(vs: seq<Volume>)
    ensures forall k :: 0 <= k < |KeptPositions(vs)| ==> KeptPositions(vs)[k] < |vs|
    ensures forall k, l :: 0 <= k < l < |KeptPositions(vs)| ==> KeptPositions(vs)[k] < KeptPositions(vs)[l]
    decreases |vs|
  {
    if vs != [] {
      KeptPositionsIncrease(vs[..|vs| - 1]);
    }
  }

  lemma {:induction false} KeptPositionsAre(vs: seq<Volume>, i: nat)
    ensures i in KeptPositions(vs) <==> i < |vs| && vs[i].hostPath.None?
    decreases |vs|
  {
    if vs != [] {
      var n := |vs| - 1;
      KeptPositionsAre(vs[..n], i);
      assert i in KeptPositions(vs) <==> i in KeptPositions(vs[..n]) || (i == n && vs[n].hostPath.None?);
    }
  }

  /** The volumes that remain are exactly those without a host path, in their old order. */
  lemma {:induction false} RemainingVolumes(vs: seq<Volume>)
    ensures |KeptPositions(vs)| == |WithoutHostPaths(vs)|
    ensures forall k :: 0 <= k < |WithoutHostPaths(vs)| ==>
              KeptPositions(vs)[k] < |vs| && WithoutHostPaths(vs)[k] == vs[KeptPositions(vs)[k]]
    ensures forall i: nat :: i in KeptPositions(vs) <==> i < |vs| && vs[i].hostPath.None?
    ensures forall k, l :: 0 <= k < l < |KeptPositions(vs)| ==> KeptPositions(vs)[k] < KeptPositions(vs)[l]
  {
    forall i: nat
      ensures i in KeptPositions(vs) <==> i < |vs| && vs[i].hostPath.None?
    {
      KeptPositionsAre(vs, i);
    }
    KeptPositionsIncrease(vs);
    RemainingAt(vs);
  }

  lemma {:induction false} RemainingAt(vs: seq<Volume>)
    ensures |KeptPositions(vs)| == |WithoutHostPaths(vs)|
    ensures forall k :: 0 <= k < |WithoutHostPaths(vs)| ==>
              KeptPositions(vs)[k] < |vs| && WithoutHostPaths(vs)[k] == vs[KeptPositions(vs)[k]]
    decreases |vs|
  {
    if vs != [] {
      RemainingAt(vs[..|vs| - 1]);
    }
  }
}
