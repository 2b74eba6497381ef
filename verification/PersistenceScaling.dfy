/**
  Expansion of the persistent volume claims of a cluster: the StatefulSet is deleted with orphaned pods,
  then each claim that is too small is resized. The functions give the effect of each step for every
  possible series of API replies.
*/
module PersistenceScaling {
  import opened Wrappers
  import opened Decimal
  import opened Api

  datatype Claim = Claim(name: string, request: int)

  datatype ScaleError =
    | StsUnreadable
    | EphemeralToPersistent
    | Shrinking
    | PvcUnreadable
    | StsNotDeleted
    | PvcNotUpdated

  type Status = Option<ScaleError>  // None is Go's nil error

  const DELETE_POLLS: nat := 10

  /** Reads claims `i..n`, appending those that exist to `acc`. */
  function GetClusterPvcs(w: World, o: Oracle, cluster: string, i: nat, n: int, acc: seq<Claim>)
    : (r: (World, Option<seq<Claim>>))
    decreases n - i
  {
    if i >= n then (w, Some(acc))
    else
      var w1 := Answer(w, o);
      if VerdictOf(w, o) != Done then (w1, None)
      else
        var name := PvcName(cluster, i);
        GetClusterPvcs(w1, o, cluster, i + 1, n, if name in w1.pvcs then acc + [Claim(name, w1.pvcs[name])] else acc)
  }

  function NeedingScaling(claims: seq<Claim>, desired: int): seq<Claim> {
    if claims == [] then []
    else
      var last := claims[|claims| - 1];
      NeedingScaling(claims[..|claims| - 1], desired) + if last.request < desired then [last] else []
  }

  /** Polls at most `k` times for the StatefulSet to be gone; a failed read only uses up a poll. */
  function AwaitAbsent(w: World, o: Oracle, k: nat): (World, Status)
    decreases k
  {
    if k == 0 then (w, Some(StsNotDeleted))
    else
      var w1 := Answer(w, o);
      if VerdictOf(w, o) == Done && w1.sts.Absent? then (w1.(log := w1.log + [SawAbsent]), None)
      else AwaitAbsent(w1, o, k - 1)
  }

  function DeleteSts(w: World, o: Oracle): (World, Status) {
    var w1 := Answer(w, o);
    if VerdictOf(w, o) != Done then (w1, Some(StsUnreadable))
    else if w1.sts.Absent? then (w1.(log := w1.log + [SawAbsent]), None)
    else
      var w2 := Answer(w1, o);
      if w2.sts.Absent? || !TookEffect(VerdictOf(w1, o)) then (w2, Some(StsNotDeleted))
      else
        var w3 := w2.(sts := w2.sts.(terminating := true), log := w2.log + [DeleteSent]);
        if VerdictOf(w1, o) != Done then (w3, Some(StsNotDeleted)) else AwaitAbsent(w3, o, DELETE_POLLS)
  }

  /** Resizes the claims one by one, reading each again just before. */
  function ScaleUpPvcs(w: World, o: Oracle, claims: seq<Claim>, desired: int): (World, Status)
    decreases |claims|
  {
    if claims == [] then (w, None)
    else
      var name := claims[0].name;
      var w1 := Answer(w, o);
      if VerdictOf(w, o) != Done || name !in w1.pvcs then (w1, Some(PvcUnreadable))
      else
        var w2 := Answer(w1, o);
        if !TookEffect(VerdictOf(w1, o)) then (w2, Some(PvcNotUpdated))
        else
          var w3 := w2.(pvcs := w2.pvcs[name := desired], log := w2.log + [Resized(name, w1.pvcs[name], desired)]);
          if VerdictOf(w1, o) != Done then (w3, Some(PvcNotUpdated)) else ScaleUpPvcs(w3, o, claims[1..], desired)
  }

  /** Whether the request is refused given the StatefulSet that was read. */
  function Refusal(sts: Sts, desired: int): Status {
    if sts.Absent? then None
    else if sts.capacity == 0 && desired != 0 then Some(EphemeralToPersistent)
    else if sts.capacity > desired then Some(Shrinking)
    else None
  }

  /** The part of `Scale` after the claims have been read. */
  function ResizeStep(w2: World, o: Oracle, existing: seq<Claim>, desired: int): (World, Status) {
    var small := NeedingScaling(existing, desired);
    if small == [] then (w2, None)
    else
      var (w3, err) := DeleteSts(w2, o);
      if err.Some? then (w3, err) else ScaleUpPvcs(w3, o, small, desired)
  }

  function Scale(w: World, o: Oracle, cluster: string, replicas: Option<int>, desired: int): (World, Status) {
    var w1 := Answer(w, o);
    if VerdictOf(w, o) != Done then (w1, Some(StsUnreadable))
    else if Refusal(w1.sts, desired).Some? then (w1, Refusal(w1.sts, desired))
    else
      var (w2, existing) := GetClusterPvcs(w1, o, cluster, 0, PodCount(replicas), []);
      if existing.None? then (w2, Some(PvcUnreadable))
      else ResizeStep(w2, o, existing.value, desired)
  }

  function PodCount(replicas: Option<int>): int {
    if replicas.Some? then replicas.value else 1
  }

  // ---- What one call may change ----

  /** The claim names of pods `0..n`. */
  function PodNames(cluster: string, n: int): set<string>
    decreases n
  {
    if n <= 0 then {} else PodNames(cluster, n - 1) + {PvcName(cluster, n - 1)}
  }

  lemma {:induction false} PodNamesAre(cluster: string, n: int, i: nat)
    ensures PvcName(cluster, i) in PodNames(cluster, n) <==> i < n
    decreases n
  {
    if n > 0 {
      PodNamesAre(cluster, n - 1, i);
      PvcNameInjective(cluster, i, cluster, n - 1);
    }
  }

  /** The claims of pods `0..n` that exist and request less than `desired`. */
  function TooSmall(pvcs: map<string, int>, cluster: string, n: int, desired: int): set<string> {
    set p | p in PodNames(cluster, n) && p in pvcs && pvcs[p] < desired
  }

  /** The StatefulSet is as it was, except that its deletion may have been requested or completed. */
  predicate SameOrGoing(s: Sts, t: Sts) {
    t.Absent? || (s.Present? && t.Present? && t.replicas == s.replicas && t.capacity == s.capacity)
  }

  /** Some of `names` now request `desired`, having requested less; every other claim is as it was. */
  ghost predicate Grew(before: map<string, int>, after: map<string, int>, names: set<string>, desired: int) {
    && before.Keys == after.Keys
    && forall p :: p in before ==>
         || after[p] == before[p]
         || (p in names && before[p] < desired && after[p] == desired)
  }

  predicate WritesSts(e: Event) {
    e.WroteReplicas? || e.OthersWroteSts?
  }

  /** Before entry `i`, the StatefulSet was seen to be gone, and nobody has written it since. */
  ghost predicate SeenGoneBefore(log: seq<Event>, i: int)
    requires 0 <= i <= |log|
  {
    exists j :: 0 <= j < i && log[j].SawAbsent? && forall k :: j < k < i ==> !WritesSts(log[k])
  }

  /** Every resize from entry `from` on grows its claim, and happens while the StatefulSet is known to be gone. */
  ghost predicate OrderedResizes(log: seq<Event>, from: nat) {
    forall i :: from <= i < |log| && log[i].Resized? ==>
      log[i].from < log[i].to && SeenGoneBefore(log[from..], i - from)
  }

  /** `t` is reached from `s` without any effect on claims, annotations or replica counts. */
  ghost predicate Quiet(s: World, t: World) {
    && s.pvcs == t.pvcs
    && s.annotations == t.annotations
    && SameOrGoing(s.sts, t.sts)
    && s.calls <= t.calls
    && s.log <= t.log
    && forall i :: |s.log| <= i < |t.log| ==> t.log[i] == SawAbsent || t.log[i] == DeleteSent
  }

  lemma QuietTrans(s: World, t: World, u: World)
    requires Quiet(s, t) && Quiet(t, u)
    ensures Quiet(s, u)
  {
  }

  function Names(claims: seq<Claim>): set<string> {
    set k | 0 <= k < |claims| :: claims[k].name
  }

  predicate Distinct(claims: seq<Claim>) {
    forall k, l :: 0 <= k < l < |claims| ==> claims[k].name != claims[l].name
  }

  predicate Current(claims: seq<Claim>, pvcs: map<string, int>) {
    forall k :: 0 <= k < |claims| ==> claims[k].name in pvcs && claims[k].request == pvcs[claims[k].name]
  }

  /** The claims read are exactly the existing ones among pods `0..i`, each once. */
  predicate Read(claims: seq<Claim>, pvcs: map<string, int>, cluster: string, i: int) {
    && Current(claims, pvcs)
    && Distinct(claims)
    && Names(claims) == PodNames(cluster, i) * pvcs.Keys
  }

  lemma ReadExtends(claims: seq<Claim>, pvcs: map<string, int>, cluster: string, i: nat)
    requires Read(claims, pvcs, cluster, i)
    ensures var name := PvcName(cluster, i);
            Read(if name in pvcs then claims + [Claim(name, pvcs[name])] else claims, pvcs, cluster, i + 1)
  {
    var name := PvcName(cluster, i);
    PodNamesAre(cluster, i, i);
    if name in pvcs {
      var next := claims + [Claim(name, pvcs[name])];
      forall k | 0 <= k < |claims|
        ensures claims[k].name != name
      {
        assert claims[k].name in Names(claims);
      }
      assert Names(next) == Names(claims) + {name} by {
        assert next[|claims|].name == name;
        assert forall k :: 0 <= k < |claims| ==> next[k] == claims[k];
      }
    }
  }

  lemma {:induction false} GetClusterPvcsReads(w: World, o: Oracle, cluster: string, i: nat, n: int, acc: seq<Claim>)
    requires i <= n || i == 0
    requires Read(acc, w.pvcs, cluster, i)
    ensures var (w', r) := GetClusterPvcs(w, o, cluster, i, n, acc);
            Quiet(w, w') && w'.log == w.log && (r.Some? ==> Read(r.value, w.pvcs, cluster, n))
    decreases n - i
  {
    if i < n {
      var w1 := Answer(w, o);
      if VerdictOf(w, o) == Done {
        var name := PvcName(cluster, i);
        var next := if name in w1.pvcs then acc + [Claim(name, w1.pvcs[name])] else acc;
        ReadExtends(acc, w1.pvcs, cluster, i);
        GetClusterPvcsReads(w1, o, cluster, i + 1, n, next);
        QuietTrans(w, w1, GetClusterPvcs(w1, o, cluster, i + 1, n, next).0);
      }
    }
  }

  lemma {:induction false} NeedingScalingFilters(claims: seq<Claim>, desired: int)
    ensures forall c :: c in NeedingScaling(claims, desired) <==> c in claims && c.request < desired
    decreases |claims|
  {
    if claims != [] {
      var front, last := claims[..|claims| - 1], claims[|claims| - 1];
      NeedingScalingFilters(front, desired);
      assert forall c :: c in claims <==> c in front || c == last;
    }
  }

  lemma {:induction false} NeedingScalingDistinct(claims: seq<Claim>, desired: int)
    requires Distinct(claims)
    ensures Distinct(NeedingScaling(claims, desired))
    decreases |claims|
  {
    if claims != [] {
      var front, last := claims[..|claims| - 1], claims[|claims| - 1];
      NeedingScalingDistinct(front, desired);
      NeedingScalingFilters(front, desired);
      var small := NeedingScaling(front, desired);
      forall k | 0 <= k < |small|
        ensures small[k].name != last.name
      {
        assert small[k] in front;
      }
    }
  }

  lemma {:induction false} AwaitAbsentIsQuiet(w: World, o: Oracle, k: nat)
    ensures var (w', r) := AwaitAbsent(w, o, k);
            Quiet(w, w') && (r.None? ==> |w.log| < |w'.log| && w'.log[|w.log|] == SawAbsent && w'.sts.Absent?)
    ensures AwaitAbsent(w, o, k).1 in {None, Some(StsNotDeleted)}
    decreases k
  {
    if k != 0 {
      var w1 := Answer(w, o);
      if !(VerdictOf(w, o) == Done && w1.sts.Absent?) {
        AwaitAbsentIsQuiet(w1, o, k - 1);
        QuietTrans(w, w1, AwaitAbsent(w1, o, k - 1).0);
      }
    }
  }

  lemma DeleteStsIsQuiet(w: World, o: Oracle)
    ensures var (w', r) := DeleteSts(w, o);
            && Quiet(w, w')
            && (r.None? ==> w'.sts.Absent? && exists i :: |w.log| <= i < |w'.log| && w'.log[i] == SawAbsent)
    ensures DeleteSts(w, o).1 in {None, Some(StsUnreadable), Some(StsNotDeleted)}
  {
    var w1 := Answer(w, o);
    var w2 := Answer(w1, o);
    if VerdictOf(w, o) == Done && w1.sts.Absent? {
      assert DeleteSts(w, o).0.log[|w.log|] == SawAbsent;
    }
    if VerdictOf(w, o) == Done && w1.sts.Present? && w2.sts.Present? && VerdictOf(w1, o) == Done {
      var w3 := w2.(sts := w2.sts.(terminating := true), log := w2.log + [DeleteSent]);
      assert Quiet(w, w3);
      AwaitAbsentIsQuiet(w3, o, DELETE_POLLS);
      QuietTrans(w, w3, AwaitAbsent(w3, o, DELETE_POLLS).0);
    }
  }

  lemma AnswerIsQuiet(w: World, o: Oracle)
    ensures Quiet(w, Answer(w, o)) && Answer(w, o).log == w.log
  {
  }

  /** Effect of resizing: only listed claims change, each grows to `desired`, and success means all did. */
  ghost predicate Resizes(w: World, w': World, claims: seq<Claim>, desired: int, r: Status) {
    && w'.annotations == w.annotations
    && SameOrGoing(w.sts, w'.sts)
    && w.calls <= w'.calls
    && w.pvcs.Keys == w'.pvcs.Keys
    && (forall p :: p in w.pvcs ==>
          || w'.pvcs[p] == w.pvcs[p]
          || (w'.pvcs[p] == desired && exists k :: 0 <= k < |claims| && claims[k].name == p))
    && (r.None? ==> forall k :: 0 <= k < |claims| ==> claims[k].name in w'.pvcs && w'.pvcs[claims[k].name] == desired)
    && w.log <= w'.log
    && forall i :: |w.log| <= i < |w'.log| ==> w'.log[i].Resized? && w'.log[i].from < w'.log[i].to
  }

  /** The claims resized are the first ones of the list, in its order, and all of them on success. */
  ghost predicate InOrder(before: seq<Event>, after: seq<Event>, claims: seq<Claim>, desired: int, r: Status) {
    && before <= after && |after| - |before| <= |claims| && (r.None? ==> |after| - |before| == |claims|)
    && forall i :: |before| <= i < |after| ==>
         after[i].Resized? && after[i].name == claims[i - |before|].name && after[i].to == desired
  }

  lemma InOrderCons(before: seq<Event>, e: Event, after: seq<Event>, claims: seq<Claim>, desired: int, r: Status)
    requires claims != [] && e.Resized? && e.name == claims[0].name && e.to == desired
    requires InOrder(before + [e], after, claims[1..], desired, r)
    ensures InOrder(before, after, claims, desired, r)
  {
    assert after[|before|] == (before + [e])[|before|] == e;
    forall i | |before| <= i < |after|
      ensures after[i].Resized? && after[i].name == claims[i - |before|].name && after[i].to == desired
    {
      if i > |before| {
        assert claims[i - |before|] == claims[1..][i - |before| - 1];
      }
    }
  }

  /** Resizing stops at the first error. */
  lemma {:induction false} ScaleUpPvcsInOrder(w: World, o: Oracle, claims: seq<Claim>, desired: int)
    ensures var (w', r) := ScaleUpPvcs(w, o, claims, desired);
            InOrder(w.log, w'.log, claims, desired, r)
    decreases |claims|
  {
    if claims != [] {
      var name := claims[0].name;
      var w1 := Answer(w, o);
      var w2 := Answer(w1, o);
      if VerdictOf(w, o) == Done && name in w1.pvcs && TookEffect(VerdictOf(w1, o)) {
        var e := Resized(name, w1.pvcs[name], desired);
        var w3 := w2.(pvcs := w2.pvcs[name := desired], log := w2.log + [e]);
        if VerdictOf(w1, o) == Done {
          ScaleUpPvcsInOrder(w3, o, claims[1..], desired);
          var (w', r) := ScaleUpPvcs(w3, o, claims[1..], desired);
          InOrderCons(w.log, e, w'.log, claims, desired, r);
        }
      }
    }
  }

  lemma {:induction false} ScaleUpPvcsResizes(w: World, o: Oracle, claims: seq<Claim>, desired: int)
    requires forall k :: 0 <= k < |claims| ==> claims[k].name in w.pvcs && w.pvcs[claims[k].name] < desired
    requires forall k, l :: 0 <= k < l < |claims| ==> claims[k].name != claims[l].name
    ensures var (w', r) := ScaleUpPvcs(w, o, claims, desired);
            Resizes(w, w', claims, desired, r)
    ensures ScaleUpPvcs(w, o, claims, desired).1 in {None, Some(PvcUnreadable), Some(PvcNotUpdated)}
    decreases |claims|
  {
    if claims != [] {
      var name := claims[0].name;
      var w1 := Answer(w, o);
      var w2 := Answer(w1, o);
      if VerdictOf(w, o) == Done && TookEffect(VerdictOf(w1, o)) {
        var w3 := w2.(pvcs := w2.pvcs[name := desired], log := w2.log + [Resized(name, w1.pvcs[name], desired)]);
        if VerdictOf(w1, o) == Done {
          var rest := claims[1..];
          ScaleUpPvcsResizes(w3, o, rest, desired);
          var (w', r) := ScaleUpPvcs(w3, o, rest, desired);
          assert forall k :: 0 <= k < |rest| ==> rest[k] == claims[k + 1];
          assert r.None? ==> forall k :: 1 <= k < |claims| ==> claims[k] == rest[k - 1];
          assert w'.pvcs[name] == desired;
          assert forall i :: |w.log| <= i < |w3.log| ==> w'.log[i] == w3.log[i];
        }
      }
    }
  }

  /** The guarantees of one call of `Scale`, whatever the API server replies. */
  ghost predicate ScaleGuarantee(w: World, w': World, cluster: string, n: int, desired: int, r: Status) {
    var small := TooSmall(w.pvcs, cluster, n, desired);
    && w'.annotations == w.annotations
    && SameOrGoing(w.sts, w'.sts)
    && w.calls <= w'.calls
    && Grew(w.pvcs, w'.pvcs, small, desired)
    && w.log <= w'.log
    && (forall i :: |w.log| <= i < |w'.log| ==> !WritesSts(w'.log[i]))
    && OrderedResizes(w'.log, |w.log|)
    && (w'.pvcs != w.pvcs ==> w'.sts.Absent?)
    && (r.None? ==> TooSmall(w'.pvcs, cluster, n, desired) == {} && (small != {} ==> w'.sts.Absent?))
    && (small == {} ==> w'.log == w.log && w'.pvcs == w.pvcs)
    && (r == Some(Shrinking) || r == Some(EphemeralToPersistent) ==> w'.log == w.log && w'.pvcs == w.pvcs)
  }

  lemma QuietIsGuaranteed(w: World, w': World, cluster: string, n: int, desired: int, r: Status)
    requires Quiet(w, w') && r.Some?
    requires TooSmall(w.pvcs, cluster, n, desired) == {} || r == Some(Shrinking) || r == Some(EphemeralToPersistent) ==>
               w'.log == w.log
    ensures ScaleGuarantee(w, w', cluster, n, desired, r)
  {
  }

  /** The claims picked for resizing are those of the cluster's pods that are too small. */
  lemma PickedAreTooSmall(claims: seq<Claim>, pvcs: map<string, int>, cluster: string, n: int, desired: int)
    requires Read(claims, pvcs, cluster, n)
    ensures var small := NeedingScaling(claims, desired);
            && Current(small, pvcs) && Distinct(small)
            && Names(small) == TooSmall(pvcs, cluster, n, desired)
            && forall k :: 0 <= k < |small| ==> small[k].request < desired
  {
    var small := NeedingScaling(claims, desired);
    NeedingScalingFilters(claims, desired);
    NeedingScalingDistinct(claims, desired);
    forall k | 0 <= k < |small|
      ensures small[k] in claims && small[k].request < desired
    {
      assert small[k] in small;
    }
    forall p | p in TooSmall(pvcs, cluster, n, desired)
      ensures p in Names(small)
    {
      assert p in Names(claims);
      var k :| 0 <= k < |claims| && claims[k].name == p;
      assert claims[k] in small;
    }
    forall p | p in Names(small)
      ensures p in TooSmall(pvcs, cluster, n, desired)
    {
      var k :| 0 <= k < |small| && small[k].name == p;
      assert small[k] in claims;
      assert p in Names(claims);
    }
  }

  /** Resizing after the StatefulSet was seen to be gone keeps the guarantee. */
  lemma ResizeIsGuaranteed(
    w: World, w3: World, w': World, cluster: string, n: int, small: seq<Claim>, desired: int, r: Status)
    requires Quiet(w, w3) && w3.sts.Absent?
    requires exists i :: |w.log| <= i < |w3.log| && w3.log[i] == SawAbsent
    requires Current(small, w.pvcs) && Names(small) == TooSmall(w.pvcs, cluster, n, desired) != {}
    requires Resizes(w3, w', small, desired, r)
    requires r != Some(Shrinking) && r != Some(EphemeralToPersistent)
    ensures ScaleGuarantee(w, w', cluster, n, desired, r)
  {
    var g :| |w.log| <= g < |w3.log| && w3.log[g] == SawAbsent;
    assert w'.log[g] == SawAbsent;
    forall i | |w.log| <= i < |w'.log|
      ensures !WritesSts(w'.log[i])
      ensures i < |w3.log| ==> !w'.log[i].Resized?
    {
      if i < |w3.log| {
        assert w'.log[i] == w3.log[i];
      }
    }
    var tail := w'.log[|w.log|..];
    forall i | |w.log| <= i < |w'.log| && w'.log[i].Resized?
      ensures SeenGoneBefore(tail, i - |w.log|)
    {
      assert tail[g - |w.log|] == SawAbsent;
      assert forall k :: g - |w.log| < k < i - |w.log| ==> tail[k] == w'.log[k + |w.log|];
    }
    forall p | p in w.pvcs && w'.pvcs[p] != w.pvcs[p]
      ensures p in TooSmall(w.pvcs, cluster, n, desired) && w'.pvcs[p] == desired
    {
      var k :| 0 <= k < |small| && small[k].name == p;
      assert p in Names(small);
    }
    if r.None? {
      assert forall p :: p in Names(small) ==> w'.pvcs[p] == desired;
      assert TooSmall(w'.pvcs, cluster, n, desired) <= TooSmall(w.pvcs, cluster, n, desired);
    }
  }

  lemma NothingSmall(w: World, w2: World, cluster: string, n: int, desired: int)
    requires Quiet(w, w2) && w2.log == w.log && TooSmall(w.pvcs, cluster, n, desired) == {}
    ensures ScaleGuarantee(w, w2, cluster, n, desired, None)
  {
  }

  lemma ResizeStepIsGuaranteed(
    w: World, w2: World, o: Oracle, cluster: string, n: int, existing: seq<Claim>, desired: int)
    requires Quiet(w, w2) && w2.log == w.log
    requires Read(existing, w.pvcs, cluster, n)
    ensures var (w', r) := ResizeStep(w2, o, existing, desired);
            ScaleGuarantee(w, w', cluster, n, desired, r)
  {
    var (w', r) := ResizeStep(w2, o, existing, desired);
    var small := NeedingScaling(existing, desired);
    PickedAreTooSmall(existing, w.pvcs, cluster, n, desired);
    if small == [] {
      assert Names(small) == {};
      NothingSmall(w, w2, cluster, n, desired);
      return;
    }
    assert small[0].name in Names(small);
    var (w3, err) := DeleteSts(w2, o);
    DeleteStsIsQuiet(w2, o);
    QuietTrans(w, w2, w3);
    if err.Some? {
      QuietIsGuaranteed(w, w', cluster, n, desired, r);
    } else {
      ScaleUpPvcsResizes(w3, o, small, desired);
      ResizeIsGuaranteed(w, w3, w', cluster, n, small, desired, r);
    }
  }

  /**
    Whatever happens during a call: no claim shrinks, claims of other clusters or of pods beyond the count are
    untouched, every resize comes after the StatefulSet was seen to be gone, and a nil result means that no claim
    of the cluster is too small. A refused request changes nothing.
  */
  lemma ScaleIsGuaranteed(w: World, o: Oracle, cluster: string, replicas: Option<int>, desired: int)
    ensures var (w', r) := Scale(w, o, cluster, replicas, desired);
            ScaleGuarantee(w, w', cluster, if replicas.Some? then replicas.value else 1, desired, r)
  {
    var n := PodCount(replicas);
    var (w', r) := Scale(w, o, cluster, replicas, desired);
    var w1 := Answer(w, o);
    AnswerIsQuiet(w, o);
    if VerdictOf(w, o) != Done || Refusal(w1.sts, desired).Some? {
      QuietIsGuaranteed(w, w', cluster, n, desired, r);
      return;
    }
    var (w2, existing) := GetClusterPvcs(w1, o, cluster, 0, n, []);
    GetClusterPvcsReads(w1, o, cluster, 0, n, []);
    QuietTrans(w, w1, w2);
    if existing.None? {
      QuietIsGuaranteed(w, w', cluster, n, desired, r);
      return;
    }
    ResizeStepIsGuaranteed(w, w2, o, cluster, n, existing.value, desired);
  }

  /**
    The request is refused, right after the StatefulSet was read, exactly when it would give claims to a cluster that
    has none or ask for less than the claims were created with.
  */
  lemma ScaleRefusesIff(w: World, o: Oracle, cluster: string, replicas: Option<int>, desired: int)
    ensures var sts, r := Answer(w, o).sts, Scale(w, o, cluster, replicas, desired).1;
            var read := o(w.calls).verdict == Done && sts.Present?;
            && (r == Some(EphemeralToPersistent) <==> read && sts.capacity == 0 && desired != 0)
            && (r == Some(Shrinking) <==> read && sts.capacity > desired && (sts.capacity == 0 ==> desired == 0))
  {
    var w1 := Answer(w, o);
    var n := PodCount(replicas);
    GetClusterPvcsReads(w1, o, cluster, 0, n, []);
    var (w2, existing) := GetClusterPvcs(w1, o, cluster, 0, n, []);
    if existing.Some? {
      ResizeStepErrors(w2, o, existing.value, cluster, n, desired);
    }
  }

  lemma ResizeStepErrors(w: World, o: Oracle, existing: seq<Claim>, cluster: string, n: int, desired: int)
    requires Read(existing, w.pvcs, cluster, n)
    ensures ResizeStep(w, o, existing, desired).1 != Some(EphemeralToPersistent)
    ensures ResizeStep(w, o, existing, desired).1 != Some(Shrinking)
  {
    PickedAreTooSmall(existing, w.pvcs, cluster, n, desired);
    DeleteStsIsQuiet(w, o);
    if DeleteSts(w, o).1.None? {
      ScaleUpPvcsResizes(DeleteSts(w, o).0, o, NeedingScaling(existing, desired), desired);
    }
  }

  // ---- Waiting for the deletion ----

  /** A pending deletion completes between calls `from` and `to`. */
  ghost predicate SettlesIn(o: Oracle, from: nat, to: nat) {
    exists i :: from <= i <= to && o(i).settled
  }

  /** The StatefulSet is gone when call `n` is answered, the calls until then having no effect on it. */
  ghost predicate GoneAt(w: World, o: Oracle, n: nat) {
    w.sts.Absent? || (w.sts.terminating && SettlesIn(o, w.calls, n))
  }

  lemma GoneAtLater(w: World, o: Oracle, n: nat)
    requires w.calls <= n
    ensures Answer(w, o).sts.Absent? <==> GoneAt(w, o, w.calls)
    ensures GoneAt(w, o, n) <==> Answer(w, o).sts.Absent? || GoneAt(Answer(w, o), o, n)
  {
    if SettlesIn(o, w.calls, n) && !o(w.calls).settled {
      assert SettlesIn(o, w.calls + 1, n);
    }
  }

  /** The wait succeeds exactly when one of the `k` polls is answered and finds the StatefulSet gone. */
  lemma {:induction false} AwaitAbsentIff(w: World, o: Oracle, k: nat)
    ensures AwaitAbsent(w, o, k).1.None? <==>
              exists n :: w.calls <= n < w.calls + k && o(n).verdict == Done && GoneAt(w, o, n)
    decreases k
  {
    if k != 0 {
      AwaitAbsentIff(Answer(w, o), o, k - 1);
      forall n | w.calls <= n < w.calls + k
        ensures GoneAt(w, o, n) <==> Answer(w, o).sts.Absent? || GoneAt(Answer(w, o), o, n)
      {
        GoneAtLater(w, o, n);
      }
      GoneAtLater(w, o, w.calls);
      if Answer(w, o).sts.Absent? {
        assert forall n :: w.calls < n < w.calls + k ==> GoneAt(Answer(w, o), o, n);
      }
    }
  }

  /**
    Deleting succeeds exactly when the StatefulSet was gone already, or it is still there when the deletion is accepted
    and one of the next ten calls is answered after the deletion has completed.
  */
  lemma DeleteStsIff(w: World, o: Oracle)
    ensures var c := w.calls;
            DeleteSts(w, o).1.None? <==>
              && o(c).verdict == Done
              && (|| GoneAt(w, o, c)
                  || (&& !GoneAt(w, o, c + 1) && o(c + 1).verdict == Done
                      && exists n :: c + 2 <= n < c + 12 && o(n).verdict == Done && SettlesIn(o, c + 2, n)))
  {
    var w1 := Answer(w, o);
    var w2 := Answer(w1, o);
    GoneAtLater(w, o, w.calls);
    GoneAtLater(w, o, w.calls + 1);
    GoneAtLater(w1, o, w1.calls);
    if w2.sts.Present? {
      AwaitAbsentIff(w2.(sts := w2.sts.(terminating := true), log := w2.log + [DeleteSent]), o, DELETE_POLLS);
    }
  }

  // ---- Progress ----

  /** From call `n` on, the server answers every call and has completed pending deletions by then. */
  ghost predicate HealthyFrom(o: Oracle, n: nat) {
    forall k :: n <= k ==> o(k) == Reply(true, Done)
  }

  ghost predicate Healthy(o: Oracle) {
    HealthyFrom(o, 0)
  }

  lemma {:induction false} HealthyReads(w: World, o: Oracle, cluster: string, i: nat, n: int, acc: seq<Claim>)
    requires HealthyFrom(o, w.calls)
    ensures GetClusterPvcs(w, o, cluster, i, n, acc).1.Some?
    decreases n - i
  {
    if i < n {
      var w1 := Answer(w, o);
      var name := PvcName(cluster, i);
      HealthyReads(w1, o, cluster, i + 1, n, if name in w1.pvcs then acc + [Claim(name, w1.pvcs[name])] else acc);
    }
  }

  lemma {:induction false} HealthyResizes(w: World, o: Oracle, claims: seq<Claim>, desired: int)
    requires HealthyFrom(o, w.calls)
    requires forall k :: 0 <= k < |claims| ==> claims[k].name in w.pvcs
    ensures ScaleUpPvcs(w, o, claims, desired).1.None?
    decreases |claims|
  {
    if claims != [] {
      var name := claims[0].name;
      var w1 := Answer(w, o);
      var w2 := Answer(w1, o);
      HealthyResizes(w2.(pvcs := w2.pvcs[name := desired], log := w2.log + [Resized(name, w1.pvcs[name], desired)]),
                     o, claims[1..], desired);
    }
  }

  /** With a healthy server, a request fails only by being refused. */
  lemma HealthyScaleSucceeds(w: World, o: Oracle, cluster: string, replicas: Option<int>, desired: int)
    requires HealthyFrom(o, w.calls)
    ensures Scale(w, o, cluster, replicas, desired).1 == Refusal(Settle(w.sts, true), desired)
  {
    var w1 := Answer(w, o);
    var n := PodCount(replicas);
    if Refusal(w1.sts, desired).None? {
      HealthyReads(w1, o, cluster, 0, n, []);
      GetClusterPvcsReads(w1, o, cluster, 0, n, []);
      var (w2, existing) := GetClusterPvcs(w1, o, cluster, 0, n, []);
      PickedAreTooSmall(existing.value, w.pvcs, cluster, n, desired);
      DeleteStsIsQuiet(w2, o);
      HealthyDeletes(w2, o);
      HealthyResizes(DeleteSts(w2, o).0, o, NeedingScaling(existing.value, desired), desired);
    }
  }

  lemma HealthyDeletes(w: World, o: Oracle)
    requires HealthyFrom(o, w.calls)
    ensures DeleteSts(w, o).1.None?
  {
  }

  /** A nil result means that the request is not one to be refused. */
  lemma NilIsNotRefused(w: World, o: Oracle, cluster: string, replicas: Option<int>, desired: int)
    requires Scale(w, o, cluster, replicas, desired).1.None?
    ensures Refusal(Scale(w, o, cluster, replicas, desired).0.sts, desired).None?
  {
    var w1 := Answer(w, o);
    var n := PodCount(replicas);
    GetClusterPvcsReads(w1, o, cluster, 0, n, []);
    var (w2, existing) := GetClusterPvcs(w1, o, cluster, 0, n, []);
    PickedAreTooSmall(existing.value, w.pvcs, cluster, n, desired);
    DeleteStsIsQuiet(w2, o);
    ResizeStepIsGuaranteed(w2, w2, o, cluster, n, existing.value, desired);
  }

  /** A StatefulSet that is gone when the call starts is gone when it ends. */
  lemma GoneStaysGone(w: World, o: Oracle, cluster: string, replicas: Option<int>, desired: int)
    requires Answer(w, o).sts.Absent?
    ensures Scale(w, o, cluster, replicas, desired).0.sts.Absent?
  {
    var w1 := Answer(w, o);
    var n := PodCount(replicas);
    GetClusterPvcsReads(w1, o, cluster, 0, n, []);
    var (w2, existing) := GetClusterPvcs(w1, o, cluster, 0, n, []);
    if existing.Some? {
      ResizeStepIsGuaranteed(w2, w2, o, cluster, n, existing.value, desired);
    }
  }

  lemma {:induction false} ReadingKeepsSts(w: World, o: Oracle, cluster: string, i: nat, n: int, acc: seq<Claim>)
    requires w.sts.Present? && !w.sts.terminating
    ensures GetClusterPvcs(w, o, cluster, i, n, acc).0.sts == w.sts
    decreases n - i
  {
    if i < n && VerdictOf(w, o) == Done {
      var w1 := Answer(w, o);
      var name := PvcName(cluster, i);
      ReadingKeepsSts(w1, o, cluster, i + 1, n, if name in w1.pvcs then acc + [Claim(name, w1.pvcs[name])] else acc);
    }
  }

  /** When no claim is too small, the StatefulSet is left alone. */
  lemma NothingToDoKeepsSts(w: World, o: Oracle, cluster: string, replicas: Option<int>, desired: int)
    requires w.sts.Present? && !w.sts.terminating && TooSmall(w.pvcs, cluster, PodCount(replicas), desired) == {}
    ensures Scale(w, o, cluster, replicas, desired).0.sts == w.sts
  {
    var w1 := Answer(w, o);
    var n := PodCount(replicas);
    if VerdictOf(w, o) == Done && Refusal(w1.sts, desired).None? {
      ReadingKeepsSts(w1, o, cluster, 0, n, []);
      GetClusterPvcsReads(w1, o, cluster, 0, n, []);
      var (w2, existing) := GetClusterPvcs(w1, o, cluster, 0, n, []);
      if existing.Some? {
        PickedAreTooSmall(existing.value, w.pvcs, cluster, n, desired);
        NoNames(NeedingScaling(existing.value, desired));
      }
    }
  }

  lemma NoNames(claims: seq<Claim>)
    ensures Names(claims) == {} <==> claims == []
  {
    if claims != [] {
      assert claims[0].name in Names(claims);
    }
  }

  // ---- Whole runs ----

  /**
    One step of a run: a call of `Scale`, or anything the other controllers do. They may create, change or delete
    the StatefulSet, which the history records, and create claims, but never change a claim that exists.
  */
  datatype Step =
    | ScaleCall(o: Oracle, cluster: string, replicas: Option<int>, desired: int)
    | Others(sts: Sts, created: map<string, int>)

  function Apply(w: World, s: Step): World {
    match s
    case ScaleCall(o, cluster, replicas, desired) => Scale(w, o, cluster, replicas, desired).0
    case Others(sts, created) =>
      w.(sts := sts, pvcs := created + w.pvcs, log := if sts.Present? then w.log + [OthersWroteSts] else w.log)
  }

  function Run(w: World, steps: seq<Step>): World
    decreases |steps|
  {
    if steps == [] then w else Run(Apply(w, steps[0]), steps[1..])
  }

  ghost predicate NoneShrank(before: map<string, int>, after: map<string, int>) {
    forall p :: p in before ==> p in after && before[p] <= after[p]
  }

  lemma OrderedResizesExtend(w: World, w': World)
    requires w.log <= w'.log
    requires OrderedResizes(w.log, 0) && OrderedResizes(w'.log, |w.log|)
    ensures OrderedResizes(w'.log, 0)
  {
  }

  /**
    Over every run of calls with arbitrary capacities, each failing or stopping wherever it likes, no claim ever
    shrinks, and before every resize in the history the StatefulSet was seen to be gone and nobody wrote it since.
  */
  lemma {:induction false} RunNeverShrinks(w: World, steps: seq<Step>)
    requires OrderedResizes(w.log, 0)
    ensures NoneShrank(w.pvcs, Run(w, steps).pvcs)
    ensures w.log <= Run(w, steps).log && OrderedResizes(Run(w, steps).log, 0)
    decreases |steps|
  {
    if steps != [] {
      var w1 := Apply(w, steps[0]);
      if steps[0].ScaleCall? {
        var ScaleCall(o, cluster, replicas, desired) := steps[0];
        ScaleIsGuaranteed(w, o, cluster, replicas, desired);
      }
      OrderedResizesExtend(w, w1);
      RunNeverShrinks(w1, steps[1..]);
    }
  }

  /** The results of repeating one request, each attempt with its own series of replies. */
  function Retry(w: World, attempts: seq<Oracle>, cluster: string, replicas: Option<int>, desired: int)
    : (World, seq<Status>)
    decreases |attempts|
  {
    if attempts == [] then (w, [])
    else
      var (w1, r) := Scale(w, attempts[0], cluster, replicas, desired);
      var (w2, rs) := Retry(w1, attempts[1..], cluster, replicas, desired);
      (w2, [r] + rs)
  }

  /** Retrying never makes another claim too small, and from the first nil result on none is. */
  lemma {:induction false} RetryConverges(
    w: World, attempts: seq<Oracle>, cluster: string, replicas: Option<int>, desired: int)
    ensures var (w', rs) := Retry(w, attempts, cluster, replicas, desired);
            var n := PodCount(replicas);
            && TooSmall(w'.pvcs, cluster, n, desired) <= TooSmall(w.pvcs, cluster, n, desired)
            && (None in rs ==> TooSmall(w'.pvcs, cluster, n, desired) == {})
    decreases |attempts|
  {
    if attempts != [] {
      ScaleIsGuaranteed(w, attempts[0], cluster, replicas, desired);
      var w1 := Scale(w, attempts[0], cluster, replicas, desired).0;
      RetryConverges(w1, attempts[1..], cluster, replicas, desired);
    }
  }
}
