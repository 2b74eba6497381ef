/**
  `updateAnnotation`: read an object, set one annotation in the copy, write it back, and try again when the object
  changed meanwhile. The server accepts a write only if it is based on the current version; reads come from a cache
  and may be old.
*/
module Annotations {
  import opened Wrappers

  type Annots = map<string, string>

  const ATTEMPTS: nat := 5  // retry.DefaultRetry

  // ---- All callers and all other writers, in every interleaving ----

  datatype Phase =
    | Idle(left: nat)
    | Holding(left: nat, version: nat, copy: Annots)
    | Succeeded(at: nat)
    | Failed
    | FailedButWrote(at: nat)  // the write took effect, the reply was an error

  datatype Caller = Caller(key: string, value: string, phase: Phase)

  datatype Author = Initial | By(caller: nat) | Other

  /** Every version the object has had, who wrote it, and the calls in progress. */
  datatype State = State(versions: seq<Annots>, authors: seq<Author>, callers: seq<Caller>)

  datatype Move =
    | Read(i: nat, version: nat)
    | ReadFails(i: nat, retriable: bool)
    | Write(i: nat)
    | WriteFails(i: nat)
    | WriteReplyLost(i: nat)
    | OtherWrite(annots: Annots)

  function AfterFailure(left: nat, retriable: bool): Phase {
    if retriable && left > 1 then Idle(left - 1) else Failed
  }

  predicate Enabled(s: State, m: Move) {
    s.versions != [] &&
    match m
    case Read(i, v) => i < |s.callers| && s.callers[i].phase.Idle? && v < |s.versions|
    case ReadFails(i, _) => i < |s.callers| && s.callers[i].phase.Idle?
    case Write(i) => i < |s.callers| && s.callers[i].phase.Holding?
    case WriteFails(i) => i < |s.callers| && s.callers[i].phase.Holding?
    case WriteReplyLost(i) =>
      i < |s.callers| && s.callers[i].phase.Holding? && s.callers[i].phase.version == |s.versions| - 1
    case OtherWrite(_) => true
  }

  function SetPhase(s: State, i: nat, p: Phase): State
    requires i < |s.callers|
  {
    s.(callers := s.callers[i := s.callers[i].(phase := p)])
  }

  function Append(s: State, annots: Annots, author: Author): State {
    s.(versions := s.versions + [annots], authors := s.authors + [author])
  }

  function Apply(s: State, m: Move): State
    requires Enabled(s, m)
  {
    match m
    case Read(i, v) =>
      var c := s.callers[i];
      SetPhase(s, i, Holding(c.phase.left, v, s.versions[v][c.key := c.value]))
    case ReadFails(i, retriable) => SetPhase(s, i, AfterFailure(s.callers[i].phase.left, retriable))
    case Write(i) =>
      var p := s.callers[i].phase;
      if p.version == |s.versions| - 1 then SetPhase(Append(s, p.copy, By(i)), i, Succeeded(|s.versions|))
      else SetPhase(s, i, AfterFailure(p.left, true))
    case WriteFails(i) => SetPhase(s, i, Failed)
    case WriteReplyLost(i) =>
      SetPhase(Append(s, s.callers[i].phase.copy, By(i)), i, FailedButWrote(|s.versions|))
    case OtherWrite(annots) => Append(s, annots, Other)
  }

  /** The version this caller wrote, if it wrote one. */
  function Wrote(c: Caller): Option<nat> {
    match c.phase
    case Succeeded(at) => Some(at)
    case FailedButWrote(at) => Some(at)
    case _ => None
  }

  predicate CopyIsCurrent(s: State, c: Caller) {
    c.phase.Holding? ==>
      c.phase.version < |s.versions| && c.phase.copy == s.versions[c.phase.version][c.key := c.value]
  }

  /** Every version a caller wrote is the version before it with that caller's one key set. */
  predicate OneKeySet(s: State, j: nat)
    requires |s.authors| == |s.versions| && j < |s.versions|
  {
    s.authors[j].By? ==>
      && 0 < j && s.authors[j].caller < |s.callers|
      && var c := s.callers[s.authors[j].caller];
         s.versions[j] == s.versions[j - 1][c.key := c.value] && Wrote(c) == Some(j)
  }

  ghost predicate Inv(s: State) {
    && s.versions != [] && |s.authors| == |s.versions|
    && (forall i :: 0 <= i < |s.callers| ==> CopyIsCurrent(s, s.callers[i]))
    && (forall j :: 0 <= j < |s.versions| ==> OneKeySet(s, j))
    && (forall i: nat :: i < |s.callers| && Wrote(s.callers[i]).Some? ==>
          Wrote(s.callers[i]).value < |s.versions| && s.authors[Wrote(s.callers[i]).value] == By(i))
  }

  lemma ApplyKeepsInv(s: State, m: Move)
    requires Inv(s) && Enabled(s, m)
    ensures Inv(Apply(s, m))
  {
    var s' := Apply(s, m);
    forall j | 0 <= j < |s'.versions|
      ensures OneKeySet(s', j)
    {
      if j < |s.versions| {
        assert OneKeySet(s, j);
      }
    }
  }

  function Run(s: State, moves: seq<Move>): Option<State>
    decreases |moves|
  {
    if moves == [] then Some(s) else if Enabled(s, moves[0]) then Run(Apply(s, moves[0]), moves[1..]) else None
  }

  lemma {:induction false} RunKeepsInv(s: State, moves: seq<Move>)
    requires Inv(s) && Run(s, moves).Some?
    ensures var s' := Run(s, moves).value;
            Inv(s') && s.versions <= s'.versions && |s'.callers| == |s.callers|
    decreases |moves|
  {
    if moves != [] {
      ApplyKeepsInv(s, moves[0]);
      RunKeepsInv(Apply(s, moves[0]), moves[1..]);
    }
  }

  predicate Fresh(s: State) {
    && |s.versions| == |s.authors| == 1 && s.authors[0] == Initial
    && forall i :: 0 <= i < |s.callers| ==> s.callers[i].phase == Idle(ATTEMPTS)
  }

  /**
    In every interleaving, a call that succeeds has produced exactly the version before it with its one key set,
    so it loses no concurrent annotation; a call that fails has written nothing, unless its own reply was lost.
  */
  lemma CallsSetOneKey(s: State, moves: seq<Move>, i: nat)
    requires Fresh(s) && Run(s, moves).Some? && i < |s.callers|
    ensures var s' := Run(s, moves).value;
            && |s'.callers| == |s.callers| && |s'.authors| == |s'.versions|
            && var c := s'.callers[i];
            && (c.phase.Succeeded? || c.phase.FailedButWrote? ==>
                  && 0 < c.phase.at < |s'.versions|
                  && s'.versions[c.phase.at] == s'.versions[c.phase.at - 1][c.key := c.value]
                  && forall j: nat :: j < |s'.authors| && s'.authors[j] == By(i) ==> j == c.phase.at)
            && (c.phase.Failed? ==> By(i) !in s'.authors)
  {
    RunKeepsInv(s, moves);
    var s' := Run(s, moves).value;
    var c := s'.callers[i];
    if Wrote(c).Some? {
      assert OneKeySet(s', Wrote(c).value);
    }
    forall j: nat | j < |s'.authors| && s'.authors[j] == By(i)
      ensures Wrote(c) == Some(j)
    {
      assert OneKeySet(s', j);
    }
  }

  function Lookup(a: Annots, key: string): Option<string> {
    if key in a then Some(a[key]) else None
  }

  /** Nobody but caller `i` changes key `key`. */
  ghost predicate OnlyBy(s: State, i: nat, key: string)
    requires |s.authors| == |s.versions|
  {
    && (forall k: nat :: k < |s.callers| && k != i ==> s.callers[k].key != key)
    && (forall j :: 0 < j < |s.versions| && !s.authors[j].By? ==>
          Lookup(s.versions[j], key) == Lookup(s.versions[j - 1], key))
  }

  lemma {:induction false} ValueStays(s: State, i: nat, at: nat, j: nat)
    requires Inv(s) && i < |s.callers| && OnlyBy(s, i, s.callers[i].key)
    requires Wrote(s.callers[i]) == Some(at) && at <= j < |s.versions|
    ensures Lookup(s.versions[j], s.callers[i].key) == Some(s.callers[i].value)
    decreases j
  {
    assert OneKeySet(s, j);
    if at < j {
      ValueStays(s, i, at, j - 1);
    }
  }

  /** A value that was written is never undone by a caller working on another key, however old its reads were. */
  lemma WrittenValueSurvives(s: State, moves: seq<Move>, i: nat)
    requires Fresh(s) && Run(s, moves).Some? && i < |s.callers|
    ensures var s' := Run(s, moves).value;
            && s'.versions != [] && |s'.authors| == |s'.versions| && |s'.callers| == |s.callers|
            && var c := s'.callers[i];
            (Wrote(c).Some? && OnlyBy(s', i, c.key) ==>
               Lookup(s'.versions[|s'.versions| - 1], c.key) == Some(c.value))
  {
    RunKeepsInv(s, moves);
    var s' := Run(s, moves).value;
    var c := s'.callers[i];
    if Wrote(c).Some? && OnlyBy(s', i, c.key) {
      ValueStays(s', i, Wrote(c).value, |s'.versions| - 1);
    }
  }

  // ---- How often a call tries ----

  /** `k` attempts of caller `i`, each on a copy of version `v`. */
  function Attempts(i: nat, v: nat, k: nat): seq<Move> {
    if k == 0 then [] else [Read(i, v), Write(i)] + Attempts(i, v, k - 1)
  }

  lemma OldCopyUsesAttempt(s: State, i: nat, v: nat)
    requires i < |s.callers| && s.callers[i].phase.Idle? && v < |s.versions| - 1
    ensures Enabled(s, Read(i, v)) && Enabled(Apply(s, Read(i, v)), Write(i))
    ensures var left := s.callers[i].phase.left;
            Apply(Apply(s, Read(i, v)), Write(i)) == SetPhase(s, i, if left > 1 then Idle(left - 1) else Failed)
  {
    var left := s.callers[i].phase.left;
    var s' := Apply(Apply(s, Read(i, v)), Write(i));
    assert s'.callers == SetPhase(s, i, if left > 1 then Idle(left - 1) else Failed).callers;
  }

  lemma {:induction false} ConflictsAreRetried(s: State, i: nat, v: nat, k: nat, rest: seq<Move>)
    requires i < |s.callers| && s.callers[i].phase.Idle? && v < |s.versions| - 1 && k < s.callers[i].phase.left
    ensures Run(s, Attempts(i, v, k) + rest) == Run(SetPhase(s, i, Idle(s.callers[i].phase.left - k)), rest)
    decreases k
  {
    var moves := Attempts(i, v, k) + rest;
    if k == 0 {
      assert moves == rest;
      assert SetPhase(s, i, Idle(s.callers[i].phase.left)) == s;
    } else {
      OldCopyUsesAttempt(s, i, v);
      var s1 := SetPhase(s, i, Idle(s.callers[i].phase.left - 1));
      assert moves[1..] == [Write(i)] + (Attempts(i, v, k - 1) + rest);
      assert moves[1..][1..] == Attempts(i, v, k - 1) + rest;
      ConflictsAreRetried(s1, i, v, k - 1, rest);
      var n := s.callers[i].phase.left - k;
      assert SetPhase(s1, i, Idle(n)).callers == SetPhase(s, i, Idle(n)).callers;
    }
  }

  /** A read that does not find the object uses up an attempt as well; any other error ends the call. */
  lemma OtherErrorsEndTheCall(s: State, i: nat)
    requires s.versions != [] && i < |s.callers|
    ensures s.callers[i].phase.Idle? ==>
              && Apply(s, ReadFails(i, false)) == SetPhase(s, i, Failed)
              && var left := s.callers[i].phase.left;
                 Apply(s, ReadFails(i, true)) == SetPhase(s, i, if left > 1 then Idle(left - 1) else Failed)
    ensures s.callers[i].phase.Holding? ==> Apply(s, WriteFails(i)) == SetPhase(s, i, Failed)
  {
  }

  /** A call whose first attempts, up to four, meet a conflict and whose next one is accepted succeeds. */
  lemma FifthAttemptSucceeds(s: State, i: nat, v: nat, k: nat)
    requires i < |s.callers| && s.callers[i].phase == Idle(ATTEMPTS) && v < |s.versions| - 1 && k <= 4
    ensures var c, n := s.callers[i], |s.versions|;
            var r := Run(s, Attempts(i, v, k) + [Read(i, n - 1), Write(i)]);
            && r.Some? && |r.value.callers| == |s.callers| && r.value.callers[i].phase == Succeeded(n)
            && r.value.versions == s.versions + [s.versions[n - 1][c.key := c.value]]
  {
    var n := |s.versions|;
    var last := [Read(i, n - 1), Write(i)];
    ConflictsAreRetried(s, i, v, k, last);
    var s1 := SetPhase(s, i, Idle(ATTEMPTS - k));
    assert last[1..] == [Write(i)] && last[1..][1..] == [];
    var s2 := Apply(s1, Read(i, n - 1));
    assert Run(s2, [Write(i)]) == Run(Apply(s2, Write(i)), []);
  }

  /** A fifth conflict is the end. */
  lemma FifthConflictFails(s: State, i: nat, v: nat)
    requires i < |s.callers| && s.callers[i].phase == Idle(ATTEMPTS) && v < |s.versions| - 1
    ensures Run(s, Attempts(i, v, 4) + [Read(i, v), Write(i)]) == Some(SetPhase(s, i, Failed))
  {
    var last := [Read(i, v), Write(i)];
    ConflictsAreRetried(s, i, v, 4, last);
    var s1 := SetPhase(s, i, Idle(1));
    OldCopyUsesAttempt(s1, i, v);
    assert last[1..] == [Write(i)] && last[1..][1..] == [];
    var s2 := Apply(s1, Read(i, v));
    assert Run(s2, [Write(i)]) == Run(Apply(s2, Write(i)), []);
    assert SetPhase(s1, i, Failed).callers == SetPhase(s, i, Failed).callers;
  }

  // ---- One call as the code runs it, other writers interleaving between its API calls ----

  /** What becomes of one attempt. */
  datatype Try = NotFound | Unreadable | Conflict | Rejected | Accepted | ReplyLost

  predicate Retriable(t: Try) {
    t.NotFound? || t.Conflict?
  }

  /** The first `n` attempts were retriable failures. */
  predicate RetriedUpTo(script: nat -> Try, n: nat) {
    forall j: nat :: j < n ==> Retriable(script(j))
  }

  class Object {
    var versions: seq<Annots>
    var mine: seq<bool>  // which versions were written by the call under consideration

    predicate Valid()
      reads this
    {
      versions != [] && |mine| == |versions|
    }

    constructor (annots: Annots)
      ensures Valid() && versions == [annots] && mine == [false]
    {
      versions := [annots];
      mine := [false];
    }

    /** Any number of writes by others. */
    method Interleave()
      requires Valid()
      modifies this
      ensures Valid() && old(versions) <= versions && old(mine) <= mine
      ensures forall j :: |old(versions)| <= j < |versions| ==> !mine[j]
    {
      var more: seq<Annots> := *;
      versions := versions + more;
      mine := mine + seq(|more|, _ => false);
    }

    /** The server accepts the write, which is based on the current version. */
    method WriteBack(key: string, value: string)
      requires Valid()
      modifies this
      ensures Valid() && versions == old(versions) + [old(versions)[|old(versions)| - 1][key := value]]
      ensures mine == old(mine) + [true]
    {
      versions := versions + [versions[|versions| - 1][key := value]];
      mine := mine + [true];
    }

    /** The first of five attempts that is no retriable failure decides. */
    method UpdateAnnotation(key: string, value: string, script: nat -> Try) returns (r: Phase)
      requires Valid()
      modifies this
      ensures Valid() && old(versions) <= versions && old(mine) <= mine
      ensures r in {Failed, Succeeded(|versions| - 1), FailedButWrote(|versions| - 1)}
      ensures r.Succeeded? <==> exists n: nat :: n < 5 && RetriedUpTo(script, n) && script(n).Accepted?
      ensures r.FailedButWrote? <==> exists n: nat :: n < 5 && RetriedUpTo(script, n) && script(n).ReplyLost?
      ensures !r.Failed? ==> |old(versions)| < |versions| && mine[|versions| - 1]
      ensures !r.Failed? ==> versions[|versions| - 1] == versions[|versions| - 2][key := value]
      ensures forall j :: |old(versions)| <= j < |versions| - (if r.Failed? then 0 else 1) ==> !mine[j]
    {
      for attempt := 0 to ATTEMPTS
        invariant Valid() && old(versions) <= versions && old(mine) <= mine
        invariant forall j :: |old(versions)| <= j < |versions| ==> !mine[j]
        invariant RetriedUpTo(script, attempt)
      {
        Interleave();
        match script(attempt) {
          case NotFound =>
          case Unreadable =>
            return Failed;
          case Conflict =>  // somebody wrote after the read, or the copy was old already
            Interleave();
          case Rejected =>
            return Failed;
          case Accepted =>
            WriteBack(key, value);
            return Succeeded(|versions| - 1);
          case ReplyLost =>
            WriteBack(key, value);
            return FailedButWrote(|versions| - 1);
        }
      }
      return Failed;
    }
  }
}
