/**
  The two loops that bring well-known entries of the RabbitMQ container to the front of a list by swapping, while
  ranging over the very list they change.
*/
module ContainerOrder {
  import opened Wrappers

  datatype Entry = Entry(name: string, rest: string)

  const MY_POD_NAME := "MY_POD_NAME"
  const MY_POD_NAMESPACE := "MY_POD_NAMESPACE"
  const K8S_SERVICE_NAME := "K8S_SERVICE_NAME"
  const COOKIE := "rabbitmq-erlang-cookie"
  const PERSISTENCE := "persistence"

  lemma NamesDiffer()
    ensures MY_POD_NAME != MY_POD_NAMESPACE && MY_POD_NAME != K8S_SERVICE_NAME && MY_POD_NAMESPACE != K8S_SERVICE_NAME
    ensures COOKIE != PERSISTENCE
  {
  }

  function Swap(s: seq<Entry>, i: nat, j: nat): (r: seq<Entry>)
    requires i < |s| && j < |s|
    ensures |r| == |s|
  {
    s[i := s[j]][j := s[i]]
  }

  lemma SwapPermutes(s: seq<Entry>, i: nat, j: nat)
    requires i < |s| && j < |s|
    ensures multiset(Swap(s, i, j)) == multiset(s)
  {
  }

  // ---- sortEnvVar ----

  /** The place an environment variable is swapped to, if it is one of the three. */
  function Slot(name: string): Option<nat> {
    if name == MY_POD_NAME then Some(0)
    else if name == MY_POD_NAMESPACE then Some(1)
    else if name == K8S_SERVICE_NAME then Some(2)
    else None
  }

  /** The iterations from `i` on; None is Go's panic on an index beyond the list. */
  function SortEnv(s: seq<Entry>, i: nat): Option<seq<Entry>>
    requires i <= |s|
    decreases |s| - i
  {
    if i == |s| then Some(s)
    else
      match Slot(s[i].name)
      case None => SortEnv(s, i + 1)
      case Some(k) => if k >= |s| then None else SortEnv(Swap(s, k, i), i + 1)
  }

  method SortEnvVar(a: array<Entry>) returns (panicked: bool)
    modifies a
    ensures panicked <==> SortEnv(old(a[..]), 0).None?
    ensures !panicked ==> a[..] == SortEnv(old(a[..]), 0).value
  {
    for i := 0 to a.Length
      invariant SortEnv(a[..], i) == SortEnv(old(a[..]), 0)
    {
      ghost var before := a[..];
      var slot := Slot(a[i].name);
      if slot.Some? {
        if slot.value >= a.Length {
          return true;
        }
        a[slot.value], a[i] := a[i], a[slot.value];
        assert a[..] == Swap(before, slot.value, i);
      }
    }
    return false;
  }

  lemma {:induction false} SortEnvPermutes(s: seq<Entry>, i: nat)
    requires i <= |s|
    ensures SortEnv(s, i).Some? ==> multiset(SortEnv(s, i).value) == multiset(s) && |SortEnv(s, i).value| == |s|
    decreases |s| - i
  {
    if i < |s| {
      match Slot(s[i].name)
      case None => SortEnvPermutes(s, i + 1);
      case Some(k) =>
        if k < |s| {
          SwapPermutes(s, k, i);
          SortEnvPermutes(Swap(s, k, i), i + 1);
        }
    }
  }

  /** The three variables are at `p`, `q` and `r` and nowhere else. */
  ghost predicate At(s: seq<Entry>, p: nat, q: nat, r: nat) {
    && p < |s| && q < |s| && r < |s|
    && forall k :: 0 <= k < |s| ==>
         && (s[k].name == MY_POD_NAME <==> k == p)
         && (s[k].name == MY_POD_NAMESPACE <==> k == q)
         && (s[k].name == K8S_SERVICE_NAME <==> k == r)
  }

  lemma AtDistinct(s: seq<Entry>, p: nat, q: nat, r: nat)
    requires At(s, p, q, r)
    ensures p != q && p != r && q != r && |s| >= 3
  {
    NamesDiffer();
    assert s[p].name == MY_POD_NAME && s[q].name == MY_POD_NAMESPACE && s[r].name == K8S_SERVICE_NAME;
  }

  /** Where position `x` goes when `a` and `b` are swapped. */
  function Moved(x: nat, a: nat, b: nat): nat {
    if x == a then b else if x == b then a else x
  }

  lemma SwapMoves(s: seq<Entry>, p: nat, q: nat, r: nat, a: nat, b: nat)
    requires At(s, p, q, r) && a < |s| && b < |s|
    ensures At(Swap(s, a, b), Moved(p, a, b), Moved(q, a, b), Moved(r, a, b))
  {
  }

  datatype Places = Places(p: nat, q: nat, r: nat)

  /** One iteration, seen as a movement of the three positions. */
  function Iterate(x: Places, i: nat): Places {
    if i == x.p then Places(Moved(x.p, 0, i), Moved(x.q, 0, i), Moved(x.r, 0, i))
    else if i == x.q then Places(Moved(x.p, 1, i), Moved(x.q, 1, i), Moved(x.r, 1, i))
    else if i == x.r then Places(Moved(x.p, 2, i), Moved(x.q, 2, i), Moved(x.r, 2, i))
    else x
  }

  ghost predicate IsAt(s: seq<Entry>, x: Places) {
    At(s, x.p, x.q, x.r)
  }

  /** One iteration of the loop moves the positions as `Iterate` says, and never panics. */
  lemma IterationMoves(s: seq<Entry>, i: nat, x: Places) returns (t: seq<Entry>)
    requires IsAt(s, x) && i < |s|
    ensures |t| == |s| && IsAt(t, Iterate(x, i)) && SortEnv(s, i) == SortEnv(t, i + 1)
  {
    NamesDiffer();
    AtDistinct(s, x.p, x.q, x.r);
    t := s;
    match Slot(s[i].name)
    case None =>
    case Some(k) =>
      t := Swap(s, k, i);
      SwapMoves(s, x.p, x.q, x.r, k, i);
  }

  predicate InFront(s: seq<Entry>) {
    |s| >= 3 && s[0].name == MY_POD_NAME && s[1].name == MY_POD_NAMESPACE && s[2].name == K8S_SERVICE_NAME
  }

  /** From iteration 3 on, a variable ends in its place if and only if it is there already or still to come. */
  predicate InPlaceOrToCome(x: Places, i: nat) {
    (x.p == 0 || i <= x.p) && (x.q == 1 || i <= x.q) && (x.r == 2 || i <= x.r)
  }

  lemma IterateKeepsFate(x: Places, i: nat)
    requires i >= 3 && x.p != x.q && x.p != x.r && x.q != x.r
    ensures InPlaceOrToCome(x, i) <==> InPlaceOrToCome(Iterate(x, i), i + 1)
  {
  }

  lemma {:induction false} LateIterations(s: seq<Entry>, i: nat, x: Places)
    requires 3 <= i <= |s| && IsAt(s, x)
    ensures SortEnv(s, i).Some? && (InFront(SortEnv(s, i).value) <==> InPlaceOrToCome(x, i))
    decreases |s| - i
  {
    if i < |s| {
      var t := IterationMoves(s, i, x);
      AtDistinct(s, x.p, x.q, x.r);
      IterateKeepsFate(x, i);
      LateIterations(t, i + 1, Iterate(x, i));
    } else {
      NamesDiffer();
    }
  }

  /** The arrangements the loop gets wrong. */
  predicate Misplaced(p: nat, q: nat, r: nat) {
    || (r == 1 && p == 2 && q >= 3)
    || (r == 1 && q == 0 && p >= 3)
    || (r == 0 && q == 2 && p >= 3)
  }

  lemma FirstThreeIterations(x: Places)
    requires x.p != x.q && x.p != x.r && x.q != x.r
    ensures InPlaceOrToCome(Iterate(Iterate(Iterate(x, 0), 1), 2), 3) <==> !Misplaced(x.p, x.q, x.r)
  {
  }

  /**
    With each of the three variables in the list once, the loop does not panic, permutes the list, and brings them to
    places 0, 1 and 2 exactly when they did not start in one of the misplaced arrangements.
  */
  lemma SortEnvWorksIff(s: seq<Entry>, p: nat, q: nat, r: nat)
    requires At(s, p, q, r)
    ensures SortEnv(s, 0).Some? && multiset(SortEnv(s, 0).value) == multiset(s)
    ensures InFront(SortEnv(s, 0).value) <==> !Misplaced(p, q, r)
  {
    AtDistinct(s, p, q, r);
    var x := Places(p, q, r);
    var s1 := IterationMoves(s, 0, x);
    var s2 := IterationMoves(s1, 1, Iterate(x, 0));
    var s3 := IterationMoves(s2, 2, Iterate(Iterate(x, 0), 1));
    LateIterations(s3, 3, Iterate(Iterate(Iterate(x, 0), 1), 2));
    FirstThreeIterations(x);
    SortEnvPermutes(s, 0);
  }

  /** One of those arrangements, and what the loop makes of it. */
  lemma MisplacedIsReal(x: Entry, a: string, b: string, c: string)
    requires Slot(x.name).None?
    ensures var pod, namespace := Entry(MY_POD_NAME, a), Entry(MY_POD_NAMESPACE, b);
            var service := Entry(K8S_SERVICE_NAME, c);
            && At([x, service, pod, namespace], 2, 3, 1) && Misplaced(2, 3, 1)
            && SortEnv([x, service, pod, namespace], 0) == Some([x, namespace, service, pod])
  {
    NamesDiffer();
    var pod, namespace, service := Entry(MY_POD_NAME, a), Entry(MY_POD_NAMESPACE, b), Entry(K8S_SERVICE_NAME, c);
    var s := [x, service, pod, namespace];
    var t := [x, pod, service, namespace];
    var u := [x, namespace, service, pod];
    assert Swap(s, 2, 1) == t && Swap(t, 2, 2) == t && Swap(t, 1, 3) == u;
    assert SortEnv(s, 0) == SortEnv(s, 1) == SortEnv(t, 2) == SortEnv(t, 3) == SortEnv(u, 4);
  }

  /** In the order in which the operator itself emits them, the loop always brings the variables to the front. */
  lemma EmittedOrderIsSorted(s: seq<Entry>, p: nat, q: nat, r: nat)
    requires At(s, p, q, r) && p < q < r
    ensures SortEnv(s, 0).Some? && InFront(SortEnv(s, 0).value)
  {
    SortEnvWorksIff(s, p, q, r);
  }

  lemma {:induction false} LongListsDoNotPanic(s: seq<Entry>, i: nat)
    requires i <= |s| && |s| >= 3
    ensures SortEnv(s, i).Some?
    decreases |s| - i
  {
    if i < |s| {
      match Slot(s[i].name)
      case None => LongListsDoNotPanic(s, i + 1);
      case Some(k) => LongListsDoNotPanic(Swap(s, k, i), i + 1);
    }
  }

  /** The loop panics exactly on these lists of one or two entries. */
  lemma SortEnvPanicsIff(s: seq<Entry>)
    ensures SortEnv(s, 0).None? <==>
              || (|s| == 1 && s[0].name in {MY_POD_NAMESPACE, K8S_SERVICE_NAME})
              || (|s| == 2 && s[0].name == K8S_SERVICE_NAME)
              || (|s| == 2 && s[1].name == K8S_SERVICE_NAME && s[0].name != MY_POD_NAMESPACE)
  {
    NamesDiffer();
    if |s| >= 3 {
      LongListsDoNotPanic(s, 0);
    } else if |s| == 2 {
      var k := Slot(s[0].name);
      if k.None? || k.value < 2 {
        var t := if k.None? then s else Swap(s, k.value, 0);
        assert SortEnv(s, 0) == SortEnv(t, 1);
        var l := Slot(t[1].name);
        assert SortEnv(t, 1).None? <==> l == Some(2);
      }
    }
  }

  // ---- sortVolumeMounts ----

  function SortMounts(s: seq<Entry>, i: nat): Option<seq<Entry>>
    requires i <= |s|
    decreases |s| - i
  {
    if i == |s| then Some(s)
    else if s[i].name == COOKIE then SortMounts(Swap(s, 0, i), i + 1)
    else if s[i].name == PERSISTENCE then
      if |s| < 2 then None else SortMounts(Swap(s, 1, i), i + 1)
    else SortMounts(s, i + 1)
  }

  method SortVolumeMounts(a: array<Entry>) returns (panicked: bool)
    modifies a
    ensures panicked <==> SortMounts(old(a[..]), 0).None?
    ensures !panicked ==> a[..] == SortMounts(old(a[..]), 0).value
  {
    for i := 0 to a.Length
      invariant SortMounts(a[..], i) == SortMounts(old(a[..]), 0)
    {
      ghost var before := a[..];
      if a[i].name == COOKIE {
        a[0], a[i] := a[i], a[0];
        assert a[..] == Swap(before, 0, i);
        continue;
      }
      if a[i].name == PERSISTENCE {
        if a.Length < 2 {
          return true;
        }
        a[1], a[i] := a[i], a[1];
        assert a[..] == Swap(before, 1, i);
      }
    }
    return false;
  }

  lemma {:induction false} SortMountsPermutes(s: seq<Entry>, i: nat)
    requires i <= |s|
    ensures SortMounts(s, i).Some? ==> multiset(SortMounts(s, i).value) == multiset(s)
    ensures SortMounts(s, i).None? <==> |s| == 1 && i == 0 && s[0].name == PERSISTENCE
    decreases |s| - i
  {
    NamesDiffer();
    if i < |s| {
      if s[i].name == COOKIE {
        SwapPermutes(s, 0, i);
        SortMountsPermutes(Swap(s, 0, i), i + 1);
      } else if s[i].name == PERSISTENCE {
        if |s| >= 2 {
          SwapPermutes(s, 1, i);
          SortMountsPermutes(Swap(s, 1, i), i + 1);
        }
      } else {
        SortMountsPermutes(s, i + 1);
      }
    }
  }

  ghost predicate OneCookie(s: seq<Entry>, c: nat) {
    c < |s| && forall k :: 0 <= k < |s| ==> (s[k].name == COOKIE <==> k == c)
  }

  /** After `i` iterations the cookie is first or still to come, and a persistence mount that was seen is second. */
  ghost predicate MountsSoFar(s: seq<Entry>, i: nat, c: nat) {
    && OneCookie(s, c) && (c == 0 || i <= c)
    && ((exists k :: 0 <= k < i && k < |s| && s[k].name == PERSISTENCE) ==> |s| >= 2 && s[1].name == PERSISTENCE)
  }

  predicate MountsInFront(s: seq<Entry>) {
    && s != [] && s[0].name == COOKIE
    && ((exists k :: 0 <= k < |s| && s[k].name == PERSISTENCE) ==> |s| >= 2 && s[1].name == PERSISTENCE)
  }

  lemma MountIteration(s: seq<Entry>, i: nat, c: nat) returns (t: seq<Entry>, c': nat)
    requires i < |s| && MountsSoFar(s, i, c) && (|s| == 1 ==> s[0].name == COOKIE)
    ensures |t| == |s| && SortMounts(s, i) == SortMounts(t, i + 1) && MountsSoFar(t, i + 1, c')
  {
    NamesDiffer();
    t, c' := s, c;
    if s[i].name == COOKIE {
      t, c' := Swap(s, 0, i), 0;
      assert forall k :: 0 <= k < |s| ==> t[k] == s[Moved(k, 0, i)];
    } else if s[i].name == PERSISTENCE {
      t, c' := Swap(s, 1, i), Moved(c, 1, i);
      assert forall k :: 0 <= k < |s| ==> t[k] == s[Moved(k, 1, i)];
    }
  }

  lemma {:induction false} MountIterations(s: seq<Entry>, i: nat, c: nat)
    requires i <= |s| && MountsSoFar(s, i, c) && (|s| == 1 ==> s[0].name == COOKIE)
    ensures SortMounts(s, i).Some? && MountsInFront(SortMounts(s, i).value)
    decreases |s| - i
  {
    if i < |s| {
      var t, c' := MountIteration(s, i, c);
      MountIterations(t, i + 1, c');
    }
  }

  /** With exactly one cookie mount, it ends first, and some persistence mount, if there is any, ends second. */
  lemma SortMountsWorks(s: seq<Entry>, c: nat)
    requires OneCookie(s, c)
    ensures SortMounts(s, 0).Some? && multiset(SortMounts(s, 0).value) == multiset(s)
    ensures MountsInFront(SortMounts(s, 0).value)
  {
    MountIterations(s, 0, c);
    SortMountsPermutes(s, 0);
  }
}
