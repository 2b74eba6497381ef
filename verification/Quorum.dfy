/**
  The quorum check: one goroutine per endpoint sends its result into a buffered channel; the main routine waits for
  all of them, closes the channel, and turns what arrived into one status text.
*/
module Quorum {
  import opened Decimal
  import opened Text

  datatype NodeStatus = Healthy | QuorumCritical | Unavailable

  datatype Check = Check(pod: string, status: NodeStatus)

  // ---- Collecting, in every interleaving ----

  datatype Worker = NotStarted | Running | Sent | Finished

  datatype Main = Spawning(next: nat) | Draining | Returned

  /** `checks[i]` is what worker `i` will send; `pending` is the wait group's counter. */
  datatype State = State(
    workers: seq<Worker>, channel: seq<Check>, closed: bool, pending: int, main: Main, collected: seq<Check>)

  datatype Move = Spawn | Send(i: nat) | Finish(i: nat) | StopWaiting | Receive | Return

  function Start(n: nat): State {
    State(seq(n, _ => NotStarted), [], false, 0, Spawning(0), [])
  }

  /** A send needs room in the buffer, whose capacity is the number of endpoints. */
  predicate Enabled(s: State, m: Move) {
    match m
    case Spawn => s.main.Spawning? && s.main.next < |s.workers|
    case Send(i) => i < |s.workers| && s.workers[i].Running? && |s.channel| < |s.workers|
    case Finish(i) => i < |s.workers| && s.workers[i].Sent?
    case StopWaiting => s.main.Spawning? && s.main.next >= |s.workers| && s.pending == 0
    case Receive => s.main.Draining? && s.channel != []
    case Return => s.main.Draining? && s.channel == [] && s.closed
  }

  function Apply(s: State, m: Move, checks: seq<Check>): State
    requires Enabled(s, m) && |checks| == |s.workers|
  {
    match m
    case Spawn =>
      s.(workers := s.workers[s.main.next := Running], pending := s.pending + 1, main := Spawning(s.main.next + 1))
    case Send(i) => s.(workers := s.workers[i := Sent], channel := s.channel + [checks[i]])
    case Finish(i) => s.(workers := s.workers[i := Finished], pending := s.pending - 1)
    case StopWaiting => s.(main := Draining, closed := true)
    case Receive => s.(channel := s.channel[1..], collected := s.collected + [s.channel[0]])
    case Return => s.(main := Returned)
  }

  /** Workers that were started and have not finished. */
  function Active(workers: seq<Worker>): nat {
    if workers == [] then 0
    else Active(workers[1..]) + if workers[0].Running? || workers[0].Sent? then 1 else 0
  }

  predicate HasSent(w: Worker) {
    w.Sent? || w.Finished?
  }

  /** What one worker has contributed. */
  function Part(w: Worker, check: Check): multiset<Check> {
    if HasSent(w) then multiset{check} else multiset{}
  }

  /** The results sent so far. */
  function Delivered(workers: seq<Worker>, checks: seq<Check>): multiset<Check>
    requires |workers| == |checks|
  {
    if workers == [] then multiset{} else Part(workers[0], checks[0]) + Delivered(workers[1..], checks[1..])
  }

  lemma {:induction false} ActiveUpdate(workers: seq<Worker>, i: nat, w: Worker)
    requires i < |workers|
    ensures var active := (x: Worker) => if x.Running? || x.Sent? then 1 else 0;
            Active(workers[i := w]) == Active(workers) - active(workers[i]) + active(w)
    decreases |workers|
  {
    var workers' := workers[i := w];
    if i == 0 {
      assert workers'[1..] == workers[1..];
    } else {
      assert workers'[1..] == workers[1..][i - 1 := w];
      ActiveUpdate(workers[1..], i - 1, w);
    }
  }

  lemma {:induction false} DeliveredUpdate(workers: seq<Worker>, checks: seq<Check>, i: nat, w: Worker)
    requires i < |workers| == |checks| && !HasSent(workers[i])
    ensures Delivered(workers[i := w], checks) == Delivered(workers, checks) + Part(w, checks[i])
    decreases |workers|
  {
    var workers' := workers[i := w];
    if i == 0 {
      assert workers'[1..] == workers[1..];
    } else {
      assert workers'[1..] == workers[1..][i - 1 := w];
      DeliveredUpdate(workers[1..], checks[1..], i - 1, w);
      assert workers'[0] == workers[0];
    }
  }

  lemma {:induction false} DeliveredSame(workers: seq<Worker>, checks: seq<Check>, i: nat, w: Worker)
    requires i < |workers| == |checks| && HasSent(workers[i]) == HasSent(w)
    ensures Delivered(workers[i := w], checks) == Delivered(workers, checks)
    decreases |workers|
  {
    var workers' := workers[i := w];
    if i == 0 {
      assert workers'[1..] == workers[1..];
    } else {
      assert workers'[1..] == workers[1..][i - 1 := w];
      DeliveredSame(workers[1..], checks[1..], i - 1, w);
    }
  }

  /** No more results than workers, and fewer while one has not sent. */
  lemma {:induction false} DeliveredBound(workers: seq<Worker>, checks: seq<Check>)
    requires |workers| == |checks|
    ensures |Delivered(workers, checks)| <= |workers|
    ensures (exists i :: 0 <= i < |workers| && !HasSent(workers[i])) ==> |Delivered(workers, checks)| < |workers|
    decreases |workers|
  {
    if workers != [] {
      DeliveredBound(workers[1..], checks[1..]);
      if i :| 0 <= i < |workers| && !HasSent(workers[i]) {
        if i > 0 {
          assert !HasSent(workers[1..][i - 1]);
        }
      }
    }
  }

  lemma {:induction false} AllDelivered(workers: seq<Worker>, checks: seq<Check>)
    requires |workers| == |checks| && forall i :: 0 <= i < |workers| ==> HasSent(workers[i])
    ensures Delivered(workers, checks) == multiset(checks)
    decreases |workers|
  {
    if workers != [] {
      AllDelivered(workers[1..], checks[1..]);
      assert checks == [checks[0]] + checks[1..];
    }
  }

  lemma {:induction false} NoneDelivered(workers: seq<Worker>, checks: seq<Check>)
    requires |workers| == |checks| && forall i :: 0 <= i < |workers| ==> workers[i].NotStarted?
    ensures Delivered(workers, checks) == multiset{} && Active(workers) == 0
    decreases |workers|
  {
    if workers != [] {
      NoneDelivered(workers[1..], checks[1..]);
    }
  }

  lemma {:induction false} NoneActive(workers: seq<Worker>, i: nat)
    requires Active(workers) == 0 && i < |workers|
    ensures !workers[i].Running? && !workers[i].Sent?
    decreases |workers|
  {
    if i > 0 {
      NoneActive(workers[1..], i - 1);
    }
  }

  lemma {:induction false} SomeActive(workers: seq<Worker>) returns (i: nat)
    requires Active(workers) > 0
    ensures i < |workers| && (workers[i].Running? || workers[i].Sent?)
    decreases |workers|
  {
    if workers[0].Running? || workers[0].Sent? {
      i := 0;
    } else {
      i := SomeActive(workers[1..]);
      i := i + 1;
    }
  }

  ghost predicate Inv(s: State, checks: seq<Check>) {
    && |s.workers| == |checks|
    && s.pending == Active(s.workers)
    && multiset(s.channel) + multiset(s.collected) == Delivered(s.workers, checks)
    && s.closed == !s.main.Spawning?
    && match s.main
       case Spawning(next) =>
         && next <= |s.workers| && s.collected == []
         && forall i :: 0 <= i < |s.workers| ==> (s.workers[i].NotStarted? <==> next <= i)
       case Draining => forall i :: 0 <= i < |s.workers| ==> s.workers[i].Finished?
       case Returned => s.channel == [] && forall i :: 0 <= i < |s.workers| ==> s.workers[i].Finished?
  }

  lemma StartIsInv(checks: seq<Check>)
    ensures Inv(Start(|checks|), checks)
  {
    NoneDelivered(Start(|checks|).workers, checks);
  }

  lemma SpawnKeepsInv(s: State, checks: seq<Check>)
    requires Inv(s, checks) && Enabled(s, Spawn)
    ensures Inv(Apply(s, Spawn, checks), checks)
  {
    ActiveUpdate(s.workers, s.main.next, Running);
    DeliveredSame(s.workers, checks, s.main.next, Running);
  }

  lemma SendKeepsInv(s: State, i: nat, checks: seq<Check>)
    requires Inv(s, checks) && Enabled(s, Send(i))
    ensures Inv(Apply(s, Send(i), checks), checks)
  {
    ActiveUpdate(s.workers, i, Sent);
    SendDelivers(s.workers, s.channel, s.collected, i, checks);
  }

  lemma SendDelivers(workers: seq<Worker>, channel: seq<Check>, collected: seq<Check>, i: nat, checks: seq<Check>)
    requires i < |workers| == |checks| && workers[i].Running?
    requires multiset(channel) + multiset(collected) == Delivered(workers, checks)
    ensures multiset(channel + [checks[i]]) + multiset(collected) == Delivered(workers[i := Sent], checks)
  {
    DeliveredUpdate(workers, checks, i, Sent);
    AppendToMultiset(channel, checks[i]);
    AddToSum(multiset(channel), multiset(collected), Delivered(workers, checks), checks[i]);
  }

  lemma AddToSum<T>(a: multiset<T>, b: multiset<T>, sum: multiset<T>, x: T)
    requires a + b == sum
    ensures (a + multiset{x}) + b == sum + multiset{x}
  {
  }

  lemma FinishKeepsInv(s: State, i: nat, checks: seq<Check>)
    requires Inv(s, checks) && Enabled(s, Finish(i))
    ensures Inv(Apply(s, Finish(i), checks), checks)
  {
    ActiveUpdate(s.workers, i, Finished);
    DeliveredSame(s.workers, checks, i, Finished);
  }

  lemma ReceiveKeepsInv(s: State, checks: seq<Check>)
    requires Inv(s, checks) && Enabled(s, Receive)
    ensures Inv(Apply(s, Receive, checks), checks)
  {
    var x, rest := s.channel[0], s.channel[1..];
    assert s.channel == [x] + rest;
    assert multiset(s.channel) == multiset{x} + multiset(rest);
    assert multiset(s.collected + [x]) == multiset(s.collected) + multiset{x};
  }

  lemma StopWaitingKeepsInv(s: State, checks: seq<Check>)
    requires Inv(s, checks) && Enabled(s, StopWaiting)
    ensures Inv(Apply(s, StopWaiting, checks), checks)
  {
    forall i: nat | i < |s.workers|
      ensures s.workers[i].Finished?
    {
      NoneActive(s.workers, i);
    }
  }

  lemma ApplyKeepsInv(s: State, m: Move, checks: seq<Check>)
    requires Inv(s, checks) && Enabled(s, m)
    ensures Inv(Apply(s, m, checks), checks)
  {
    match m
    case Spawn => SpawnKeepsInv(s, checks);
    case Send(i) => SendKeepsInv(s, i, checks);
    case Finish(i) => FinishKeepsInv(s, i, checks);
    case StopWaiting => StopWaitingKeepsInv(s, checks);
    case Receive => ReceiveKeepsInv(s, checks);
    case Return =>
  }

  /** A worker that wants to send finds room, and the channel still open. */
  lemma NoSendBlocks(s: State, checks: seq<Check>, i: nat)
    requires Inv(s, checks) && i < |s.workers| && s.workers[i].Running?
    ensures Enabled(s, Send(i)) && !s.closed
  {
    DeliveredBound(s.workers, checks);
    assert !HasSent(s.workers[i]);
    assert |Delivered(s.workers, checks)| == |s.channel| + |s.collected|;
  }

  /** Until the main routine has returned, something can always happen. */
  lemma NoDeadlock(s: State, checks: seq<Check>) returns (m: Move)
    requires Inv(s, checks) && !s.main.Returned?
    ensures Enabled(s, m)
  {
    match s.main
    case Draining => m := if s.channel == [] then Return else Receive;
    case Spawning(next) =>
      if next < |s.workers| {
        m := Spawn;
      } else if s.pending == 0 {
        m := StopWaiting;
      } else {
        var i := SomeActive(s.workers);
        if s.workers[i].Running? {
          NoSendBlocks(s, checks, i);
          m := Send(i);
        } else {
          m := Finish(i);
        }
      }
  }

  function Remaining(workers: seq<Worker>): nat {
    if workers == [] then 0 else Cost(workers[0]) + Remaining(workers[1..])
  }

  /** The moves still needed for one worker, counting the reception of its result. */
  function Cost(w: Worker): nat {
    match w case NotStarted => 4 case Running => 3 case Sent => 1 case Finished => 0
  }

  lemma {:induction false} RemainingUpdate(workers: seq<Worker>, i: nat, w: Worker)
    requires i < |workers|
    ensures Remaining(workers[i := w]) == Remaining(workers) - Cost(workers[i]) + Cost(w)
    decreases |workers|
  {
    var workers' := workers[i := w];
    if i == 0 {
      assert workers'[1..] == workers[1..];
    } else {
      assert workers'[1..] == workers[1..][i - 1 := w];
      RemainingUpdate(workers[1..], i - 1, w);
    }
  }

  /** An upper bound on the number of moves left. */
  function Measure(s: State): nat {
    Remaining(s.workers) + |s.channel| + (match s.main case Spawning(_) => 2 case Draining => 1 case Returned => 0)
  }

  lemma EveryMoveCounts(s: State, m: Move, checks: seq<Check>)
    requires Inv(s, checks) && Enabled(s, m)
    ensures Measure(Apply(s, m, checks)) < Measure(s)
  {
    match m
    case Spawn => RemainingUpdate(s.workers, s.main.next, Running);
    case Send(i) => RemainingUpdate(s.workers, i, Sent);
    case Finish(i) => RemainingUpdate(s.workers, i, Finished);
    case _ =>
  }

  /** A run: a series of moves, each enabled when its turn comes. */
  ghost predicate Reaches(s: State, moves: seq<Move>, checks: seq<Check>, s': State)
    requires |checks| == |s.workers|
    decreases |moves|
  {
    if moves == [] then s == s'
    else Enabled(s, moves[0]) && Reaches(Apply(s, moves[0], checks), moves[1..], checks, s')
  }

  lemma {:induction false} RunKeepsInv(s: State, moves: seq<Move>, checks: seq<Check>, s': State)
    requires Inv(s, checks) && Reaches(s, moves, checks, s')
    ensures Inv(s', checks) && |moves| + Measure(s') <= Measure(s)
    decreases |moves|
  {
    if moves != [] {
      ApplyKeepsInv(s, moves[0], checks);
      EveryMoveCounts(s, moves[0], checks);
      RunKeepsInv(Apply(s, moves[0], checks), moves[1..], checks, s');
    }
  }

  lemma ReturnedMeansStuck(s: State, checks: seq<Check>, m: Move)
    requires Inv(s, checks) && s.main.Returned?
    ensures !Enabled(s, m)
  {
  }

  /** No move is possible. */
  ghost predicate Stuck(s: State) {
    forall m :: !Enabled(s, m)
  }

  /** No worker that wants to send has to wait or finds the channel closed. */
  predicate SendsGoThrough(s: State) {
    forall i: nat :: i < |s.workers| && s.workers[i].Running? ==> |s.channel| < |s.workers| && !s.closed
  }

  /** In every run no send ever blocks or meets a closed channel, and runs have bounded length. */
  lemma {:induction false} EveryRunIsLive(checks: seq<Check>, moves: seq<Move>, s: State)
    requires Reaches(Start(|checks|), moves, checks, s)
    ensures Inv(s, checks) && SendsGoThrough(s)
    ensures |moves| <= Measure(Start(|checks|))
  {
    StartIsInv(checks);
    RunKeepsInv(Start(|checks|), moves, checks, s);
    forall i: nat | i < |s.workers| && s.workers[i].Running?
      ensures |s.channel| < |s.workers| && !s.closed
    {
      NoSendBlocks(s, checks, i);
    }
  }

  /** A run gets stuck exactly when the main routine has returned. */
  lemma {:induction false} StuckMeansReturned(checks: seq<Check>, moves: seq<Move>, s: State)
    requires Reaches(Start(|checks|), moves, checks, s)
    ensures Stuck(s) <==> s.main.Returned?
  {
    EveryRunIsLive(checks, moves, s);
    if s.main.Returned? {
      forall m
        ensures !Enabled(s, m)
      {
        ReturnedMeansStuck(s, checks, m);
      }
    } else {
      var m := NoDeadlock(s, checks);
    }
  }

  /** When the main routine returns, exactly one result per endpoint was collected. */
  lemma {:induction false} EveryRunCollectsAll(checks: seq<Check>, moves: seq<Move>, s: State)
    requires Reaches(Start(|checks|), moves, checks, s) && s.main.Returned?
    ensures multiset(s.collected) == multiset(checks)
  {
    EveryRunIsLive(checks, moves, s);
    AllDelivered(s.workers, checks);
    assert multiset(s.channel) == multiset{};
  }

  // ---- Aggregation ----

  datatype Tally = Tally(ok: nat, unavailable: nat, critical: seq<string>)

  function Count(t: Tally, c: Check): Tally {
    match c.status
    case Healthy => t.(ok := t.ok + 1)
    case Unavailable => t.(unavailable := t.unavailable + 1)
    case QuorumCritical => t.(critical := t.critical + [c.pod])
  }

  function TallyOf(results: seq<Check>): Tally {
    if results == [] then Tally(0, 0, []) else Count(TallyOf(results[..|results| - 1]), results[|results| - 1])
  }

  function Suffix(unavailable: nat): string {
    if unavailable > 0 then " (" + Itoa(unavailable) + " unavailable)" else ""
  }

  function Render(t: Tally): string {
    if t.critical != [] then "quorum-critical: " + Join(t.critical, ", ") + Suffix(t.unavailable)
    else if t.ok > 0 then "ok" + Suffix(t.unavailable)
    else "unavailable"
  }

  /** The loop over what arrived, and the text made from it. */
  method Aggregate(results: seq<Check>) returns (status: string)
    ensures status == Render(TallyOf(results))
  {
    var criticalPods: seq<string> := [];
    var unavailable, ok := 0, 0;
    for k := 0 to |results|
      invariant Tally(ok, unavailable, criticalPods) == TallyOf(results[..k])
    {
      assert results[..k + 1][..k] == results[..k];
      match results[k].status {
        case QuorumCritical => criticalPods := criticalPods + [results[k].pod];
        case Unavailable => unavailable := unavailable + 1;
        case Healthy => ok := ok + 1;
      }
    }
    assert results[..|results|] == results;
    if |criticalPods| > 0 {
      status := "quorum-critical: " + Join(criticalPods, ", ");
      if unavailable > 0 {
        status := status + (" (" + Itoa(unavailable) + " unavailable)");
      }
      return;
    }
    if ok > 0 {
      return "ok" + (if unavailable > 0 then " (" + Itoa(unavailable) + " unavailable)" else "");
    }
    return "unavailable";
  }

  /** The text tells which of the three verdicts was reached. */
  lemma TextTellsVerdict(t: Tally)
    ensures t.critical != [] <==> "quorum-critical: " <= Render(t)
    ensures t.critical == [] && t.ok > 0 <==> "ok" <= Render(t)
    ensures t.critical == [] && t.ok == 0 <==> Render(t) == "unavailable"
  {
    assert "quorum-critical: "[0] == 'q' && "ok"[0] == 'o' && "unavailable"[0] == 'u';
    if t.critical != [] {
      assert Render(t) == "quorum-critical: " + (Join(t.critical, ", ") + Suffix(t.unavailable));
      assert Render(t)[0] == 'q';
    } else if t.ok > 0 {
      assert Render(t)[0] == 'o';
    }
  }

  /** Every endpoint is counted once. */
  lemma {:induction false} TallyIsComplete(results: seq<Check>)
    ensures var t := TallyOf(results); t.ok + t.unavailable + |t.critical| == |results|
    decreases |results|
  {
    if results != [] {
      TallyIsComplete(results[..|results| - 1]);
    }
  }

  /** Equal up to the order of the critical pods. */
  ghost predicate SameTally(a: Tally, b: Tally) {
    a.ok == b.ok && a.unavailable == b.unavailable && multiset(a.critical) == multiset(b.critical)
  }

  lemma AppendToMultiset<T>(s: seq<T>, x: T)
    ensures multiset(s + [x]) == multiset(s) + multiset{x}
  {
  }

  lemma CountSame(a: Tally, b: Tally, c: Check)
    requires SameTally(a, b)
    ensures SameTally(Count(a, c), Count(b, c))
  {
  }

  lemma CountSwap(t: Tally, c: Check, d: Check)
    ensures SameTally(Count(Count(t, c), d), Count(Count(t, d), c))
  {
  }

  /** Counting `c` before or after `d` makes no difference, also when the rest was counted in another order. */
  lemma CountLater(t: Tally, u: Tally, c: Check, d: Check)
    requires SameTally(t, Count(u, c))
    ensures SameTally(Count(t, d), Count(Count(u, d), c))
  {
    CountSame(t, Count(u, c), d);
    CountSwap(u, c, d);
  }

  lemma TallySnoc(results: seq<Check>, c: Check)
    ensures TallyOf(results + [c]) == Count(TallyOf(results), c)
  {
    assert (results + [c])[..|results|] == results;
  }

  /** Removing an entry before the last one. */
  lemma RemoveBeforeLast<T>(s: seq<T>, j: nat)
    requires j < |s| - 1
    ensures var n := |s| - 1;
            s == s[..n] + [s[n]] && s[..n][j] == s[j] &&
            s[..j] + s[j + 1..] == s[..n][..j] + s[..n][j + 1..] + [s[n]]
  {
  }

  /** An entry may be moved to the end. */
  lemma {:induction false} TallyMoveLast(results: seq<Check>, j: nat)
    requires j < |results|
    ensures SameTally(TallyOf(results), Count(TallyOf(results[..j] + results[j + 1..]), results[j]))
    decreases |results|
  {
    var n := |results| - 1;
    var front, last := results[..n], results[n];
    if j == n {
      assert results[..j] + results[j + 1..] == front;
    } else {
      var inner := front[..j] + front[j + 1..];
      RemoveBeforeLast(results, j);
      TallyMoveLast(front, j);
      TallySnoc(front, last);
      TallySnoc(inner, last);
      CountLater(TallyOf(front), TallyOf(inner), results[j], last);
    }
  }

  lemma RemoveFromMultiset<T>(s: seq<T>, j: nat)
    requires j < |s|
    ensures multiset(s) == multiset(s[..j] + s[j + 1..]) + multiset{s[j]}
  {
    assert s == s[..j] + [s[j]] + s[j + 1..];
    assert multiset(s) == multiset(s[..j]) + multiset{s[j]} + multiset(s[j + 1..]);
  }

  lemma RemoveFromBoth<T>(a: seq<T>, b: seq<T>, j: nat)
    requires multiset(a) == multiset(b) && a != [] && j < |b| && b[j] == a[|a| - 1]
    ensures multiset(a[..|a| - 1]) == multiset(b[..j] + b[j + 1..])
  {
    var n, x := |a| - 1, b[j];
    RemoveFromMultiset(b, j);
    assert a == a[..n] + [x];
    AppendToMultiset(a[..n], x);
    assert multiset(a[..n]) == multiset(a) - multiset{x} == multiset(b[..j] + b[j + 1..]);
  }

  lemma {:induction false} TallyIgnoresOrder(a: seq<Check>, b: seq<Check>)
    requires multiset(a) == multiset(b)
    ensures SameTally(TallyOf(a), TallyOf(b))
    decreases |a|
  {
    assert |a| == |multiset(a)| == |multiset(b)| == |b|;
    if a != [] {
      var n := |a| - 1;
      var x := a[n];
      assert x in multiset(b);
      var j :| 0 <= j < |b| && b[j] == x;
      var rest := b[..j] + b[j + 1..];
      RemoveFromBoth(a, b, j);
      TallyIgnoresOrder(a[..n], rest);
      TallyMoveLast(b, j);
      CountSame(TallyOf(a[..n]), TallyOf(rest), x);
    }
  }

  /**
    Two runs of the same checks report the same verdict and the same number of unavailable nodes, and list the same
    critical pods up to order.
  */
  lemma {:induction false} StatusIsOrderFree(
    checks: seq<Check>, moves1: seq<Move>, s1: State, moves2: seq<Move>, s2: State)
    requires Reaches(Start(|checks|), moves1, checks, s1) && s1.main.Returned?
    requires Reaches(Start(|checks|), moves2, checks, s2) && s2.main.Returned?
    ensures SameTally(TallyOf(s1.collected), TallyOf(s2.collected))
  {
    EveryRunCollectsAll(checks, moves1, s1);
    EveryRunCollectsAll(checks, moves2, s2);
    TallyIgnoresOrder(s1.collected, s2.collected);
  }

  // ---- What the text says about the checks ----

  /** The indices of the results with the status. */
  function Indices(results: seq<Check>, status: NodeStatus): set<nat> {
    set i: nat | i < |results| && results[i].status == status
  }

  /** How many results have the status. */
  function Number(results: seq<Check>, status: NodeStatus): nat {
    |Indices(results, status)|
  }

  lemma IndicesAppend(results: seq<Check>, c: Check, status: NodeStatus, i: nat)
    ensures i in Indices(results + [c], status) <==>
            i in Indices(results, status) || (i == |results| && c.status == status)
  {
    var more := results + [c];
    assert i < |results| ==> more[i] == results[i];
  }

  lemma NumberAppend(results: seq<Check>, c: Check, status: NodeStatus)
    ensures Number(results + [c], status) == Number(results, status) + if c.status == status then 1 else 0
  {
    var a, b := Indices(results, status), Indices(results + [c], status);
    forall i: nat
      ensures i in b <==> i in a || (i == |results| && c.status == status)
    {
      IndicesAppend(results, c, status, i);
    }
    assert |results| !in a;
    if c.status == status {
      assert b == a + {|results|};
    } else {
      assert b == a;
    }
  }

  /**
    The tally counts the healthy and the unavailable results and lists the critical pods in the order of the results:
    a critical pod's place is the number of critical results before it.
  */
  lemma {:induction false} TallyCounts(results: seq<Check>)
    ensures var t := TallyOf(results);
            && t.ok == Number(results, Healthy) && t.unavailable == Number(results, Unavailable)
            && |t.critical| == Number(results, QuorumCritical)
            && forall i :: 0 <= i < |results| && results[i].status.QuorumCritical? ==>
                 && Number(results[..i], QuorumCritical) < |t.critical|
                 && t.critical[Number(results[..i], QuorumCritical)] == results[i].pod
    decreases |results|
  {
    if results != [] {
      var n := |results| - 1;
      var front, last := results[..n], results[n];
      TallyCounts(front);
      assert results == front + [last];
      NumberAppend(front, last, Healthy);
      NumberAppend(front, last, Unavailable);
      NumberAppend(front, last, QuorumCritical);
      assert forall i :: 0 <= i < n ==> front[..i] == results[..i] && front[i] == results[i];
    }
  }

  lemma NumberIsPositiveIff(results: seq<Check>, status: NodeStatus)
    ensures Number(results, status) > 0 <==> Has(results, status)
  {
    if i :| 0 <= i < |results| && results[i].status == status {
      assert i in Indices(results, status);
    }
  }

  predicate Has(checks: seq<Check>, status: NodeStatus) {
    exists i :: 0 <= i < |checks| && checks[i].status == status
  }

  /**
    What every complete run reports: the critical pods, in some order, if there are any; else "ok" if some node is
    healthy; both with the number of unavailable nodes, if any; else "unavailable".
  */
  lemma StatusMeans(checks: seq<Check>, moves: seq<Move>, s: State)
    requires Reaches(Start(|checks|), moves, checks, s) && s.main.Returned?
    ensures var text, n := Render(TallyOf(s.collected)), Number(checks, Unavailable);
            var suffix := if n > 0 then " (" + Itoa(n) + " unavailable)" else "";
            var pods := TallyOf(s.collected).critical;
            && multiset(pods) == multiset(TallyOf(checks).critical)
            && (Has(checks, QuorumCritical) ==> text == "quorum-critical: " + Join(pods, ", ") + suffix)
            && (!Has(checks, QuorumCritical) && Has(checks, Healthy) ==> text == "ok" + suffix)
            && (!Has(checks, QuorumCritical) && !Has(checks, Healthy) ==> text == "unavailable")
  {
    EveryRunCollectsAll(checks, moves, s);
    TallyIgnoresOrder(s.collected, checks);
    TallyCounts(checks);
    NumberIsPositiveIff(checks, Healthy);
    NumberIsPositiveIff(checks, QuorumCritical);
    SameTallyIsAsLong(TallyOf(s.collected), TallyOf(checks));
  }

  lemma SameTallyIsAsLong(a: Tally, b: Tally)
    requires SameTally(a, b)
    ensures |a.critical| == |b.critical|
  {
    assert |a.critical| == |multiset(a.critical)| == |multiset(b.critical)| == |b.critical|;
  }

  /** The text too is the same unless two or more pods are critical. */
  lemma SameTallySameText(a: Tally, b: Tally)
    requires SameTally(a, b) && |a.critical| <= 1
    ensures Render(a) == Render(b)
  {
    assert |a.critical| == |multiset(a.critical)| == |multiset(b.critical)| == |b.critical|;
    if |a.critical| == 1 {
      assert a.critical[0] in multiset(b.critical);
      assert a.critical == b.critical;
    }
  }

  // ---- Two critical pods can be listed either way ----

  lemma {:induction false} ReachesThen(s: State, a: seq<Move>, s1: State, b: seq<Move>, s': State, checks: seq<Check>)
    requires |s.workers| == |s1.workers| == |checks|
    requires Reaches(s, a, checks, s1) && Reaches(s1, b, checks, s')
    ensures Reaches(s, a + b, checks, s')
    decreases |a|
  {
    if a == [] {
      assert a + b == b;
    } else {
      assert (a + b)[1..] == a[1..] + b;
      ReachesThen(Apply(s, a[0], checks), a[1..], s1, b, s', checks);
    }
  }

  /** Every worker is started before any sends. */
  lemma {:induction false} SpawnAll(s: State, checks: seq<Check>) returns (moves: seq<Move>, s': State)
    requires |s.workers| == |checks| && s.main.Spawning? && s.main.next <= |s.workers|
    requires forall k :: 0 <= k < s.main.next ==> s.workers[k].Running?
    ensures Reaches(s, moves, checks, s')
    ensures |s'.workers| == |s.workers| && s'.channel == s.channel && s'.collected == s.collected
    ensures forall k :: 0 <= k < |s'.workers| ==> s'.workers[k].Running?
    decreases |s.workers| - (if s.main.Spawning? then s.main.next else 0)
  {
    if s.main.next == |s.workers| {
      moves, s' := [], s;
    } else {
      var rest, end := SpawnAll(Apply(s, Spawn, checks), checks);
      moves, s' := [Spawn] + rest, end;
      assert moves[1..] == rest;
    }
  }

  /** Every run can be completed. */
  lemma {:induction false} Complete(s: State, checks: seq<Check>) returns (moves: seq<Move>, s': State)
    requires Inv(s, checks)
    ensures Reaches(s, moves, checks, s') && Inv(s', checks) && s'.main.Returned?
    decreases Measure(s)
  {
    if s.main.Returned? {
      moves, s' := [], s;
    } else {
      var m := NoDeadlock(s, checks);
      ApplyKeepsInv(s, m, checks);
      EveryMoveCounts(s, m, checks);
      var rest, end := Complete(Apply(s, m, checks), checks);
      moves, s' := [m] + rest, end;
      assert moves[1..] == rest;
    }
  }

  /** The states differ only in that the first two results came in the other order. */
  predicate Swapped(s: State, t: State, x: Check, y: Check, z: seq<Check>) {
    && t == s.(channel := t.channel, collected := t.collected)
    && |s.channel| == |t.channel| && |s.collected| == |t.collected|
    && s.collected + s.channel == [x, y] + z && t.collected + t.channel == [y, x] + z
  }

  lemma SwappedStep(s: State, t: State, m: Move, checks: seq<Check>, x: Check, y: Check, z: seq<Check>)
    returns (z': seq<Check>)
    requires Swapped(s, t, x, y, z) && Enabled(s, m) && |checks| == |s.workers|
    ensures Enabled(t, m) && Swapped(Apply(s, m, checks), Apply(t, m, checks), x, y, z')
  {
    z' := z;
    match m
    case Send(i) =>
      z' := z + [checks[i]];
      assert s.collected + (s.channel + [checks[i]]) == s.collected + s.channel + [checks[i]] == [x, y] + z';
      assert t.collected + (t.channel + [checks[i]]) == t.collected + t.channel + [checks[i]] == [y, x] + z';
    case Receive =>
      assert s.collected + [s.channel[0]] + s.channel[1..] == s.collected + s.channel;
      assert t.collected + [t.channel[0]] + t.channel[1..] == t.collected + t.channel;
    case _ =>
  }

  lemma {:induction false} SwappedRun(
    s: State, t: State, moves: seq<Move>, checks: seq<Check>, s': State, x: Check, y: Check, z: seq<Check>)
    returns (t': State, z': seq<Check>)
    requires |checks| == |s.workers| == |t.workers| && Swapped(s, t, x, y, z) && Reaches(s, moves, checks, s')
    ensures Reaches(t, moves, checks, t') && Swapped(s', t', x, y, z')
    decreases |moves|
  {
    if moves == [] {
      t', z' := t, z;
    } else {
      var z1 := SwappedStep(s, t, moves[0], checks, x, y, z);
      t', z' := SwappedRun(
        Apply(s, moves[0], checks), Apply(t, moves[0], checks), moves[1..], checks, s', x, y, z1);
    }
  }

  lemma {:induction false} TallyAfterCritical(x: Check, y: Check, z: seq<Check>)
    requires x.status.QuorumCritical? && y.status.QuorumCritical?
    ensures var t := TallyOf(z);
            TallyOf([x, y] + z) == Tally(t.ok, t.unavailable, [x.pod, y.pod] + t.critical)
    decreases |z|
  {
    var all := [x, y] + z;
    if z == [] {
      assert all == [x, y] && [x, y][..1] == [x] && [x][..0] == [];
    } else {
      var n := |z| - 1;
      assert all[..|all| - 1] == [x, y] + z[..n];
      TallyAfterCritical(x, y, z[..n]);
    }
  }

  /** Of two texts without a comma, joined by one, the first can be told. */
  lemma FirstIsTold(a: string, b: string, rest: string)
    requires ',' !in a && ',' !in b && a != b
    ensures a + ", " + b + rest != b + ", " + a + rest
  {
    var s, t := a + ", " + b + rest, b + ", " + a + rest;
    assert s[|a|] == ',' && t[|b|] == ',';
    assert s[..|a|] == a && t[..|b|] == b;
    assert |a| < |b| ==> t[|a|] == b[|a|];
    assert |b| < |a| ==> s[|b|] == a[|b|];
  }

  /** Equal texts around different ones leave them different. */
  lemma AroundDiffers(p: string, s: string, t: string)
    requires s != t
    ensures p + s != p + t
  {
    assert (p + s)[|p|..] == s && (p + t)[|p|..] == t;
  }

  lemma Regroup(p: string, u: string, more: string, end: string)
    ensures p + (u + more) + end == p + (u + (more + end))
  {
  }

  lemma RenderDiffers(ok: nat, unavailable: nat, a: string, b: string, critical: seq<string>)
    requires ',' !in a && ',' !in b && a != b
    ensures Render(Tally(ok, unavailable, [a, b] + critical)) != Render(Tally(ok, unavailable, [b, a] + critical))
  {
    var p, end := "quorum-critical: ", Suffix(unavailable);
    var more := if critical == [] then "" else ", " + Join(critical, ", ");
    JoinTwo(a, b, critical);
    JoinTwo(b, a, critical);
    Regroup(p, a + ", " + b, more, end);
    Regroup(p, b + ", " + a, more, end);
    FirstIsTold(a, b, more + end);
    AroundDiffers(p, a + ", " + b + (more + end), b + ", " + a + (more + end));
  }

  lemma JoinTwo(a: string, b: string, critical: seq<string>)
    ensures Join([a, b] + critical, ", ") ==
            a + ", " + b + if critical == [] then "" else ", " + Join(critical, ", ")
  {
    var all := [a, b] + critical;
    assert all[1..] == [b] + critical && ([b] + critical)[1..] == critical;
  }

  /** After all workers have started, two of them send in either order; nothing else differs. */
  lemma EitherSendsFirst(s: State, checks: seq<Check>, i: nat, j: nat)
    requires |s.workers| == |checks| && i < |checks| && j < |checks| && i != j && s.channel == [] && s.collected == []
    requires forall k :: 0 <= k < |s.workers| ==> s.workers[k].Running?
    ensures Enabled(s, Send(i)) && Enabled(s, Send(j))
    ensures var s1, t1 := Apply(s, Send(i), checks), Apply(s, Send(j), checks);
            && Enabled(s1, Send(j)) && Enabled(t1, Send(i))
            && Swapped(Apply(s1, Send(j), checks), Apply(t1, Send(i), checks), checks[i], checks[j], [])
  {
    assert s.workers[i := Sent][j := Sent] == s.workers[j := Sent][i := Sent];
  }

  /** For any two workers there are two runs that differ only in which of the two results comes first. */
  lemma EitherComesFirst(checks: seq<Check>, i: nat, j: nat)
    returns (moves1: seq<Move>, s1: State, moves2: seq<Move>, s2: State, z: seq<Check>)
    requires i < |checks| && j < |checks| && i != j
    ensures Reaches(Start(|checks|), moves1, checks, s1) && s1.main.Returned?
    ensures Reaches(Start(|checks|), moves2, checks, s2) && s2.main.Returned?
    ensures s1.collected == [checks[i], checks[j]] + z && s2.collected == [checks[j], checks[i]] + z
  {
    var first, s := SpawnAll(Start(|checks|), checks);
    EitherSendsFirst(s, checks, i, j);
    var a := Apply(Apply(s, Send(i), checks), Send(j), checks);
    var b := Apply(Apply(s, Send(j), checks), Send(i), checks);
    SentIsInv(checks, first, s, i, j);
    var last;
    last, s1 := Complete(a, checks);
    s2, z := SwappedRun(a, b, last, checks, s1, checks[i], checks[j], []);
    moves1, moves2 := first + ([Send(i), Send(j)] + last), first + ([Send(j), Send(i)] + last);
    TwoSends(s, i, j, last, checks, s1);
    TwoSends(s, j, i, last, checks, s2);
    ReachesThen(Start(|checks|), first, s, [Send(i), Send(j)] + last, s1, checks);
    ReachesThen(Start(|checks|), first, s, [Send(j), Send(i)] + last, s2, checks);
    assert s1.collected + s1.channel == s1.collected && s2.collected + s2.channel == s2.collected;
  }

  lemma SentIsInv(checks: seq<Check>, moves: seq<Move>, s: State, i: nat, j: nat)
    requires Reaches(Start(|checks|), moves, checks, s) && |s.workers| == |checks|
    requires Enabled(s, Send(i)) && Enabled(Apply(s, Send(i), checks), Send(j))
    ensures Inv(Apply(Apply(s, Send(i), checks), Send(j), checks), checks)
  {
    StartIsInv(checks);
    RunKeepsInv(Start(|checks|), moves, checks, s);
    ApplyKeepsInv(s, Send(i), checks);
    ApplyKeepsInv(Apply(s, Send(i), checks), Send(j), checks);
  }

  /** With two critical pods of different names, two runs of the same checks report different texts. */
  lemma TextDependsOnOrder(checks: seq<Check>, i: nat, j: nat)
    returns (moves1: seq<Move>, s1: State, moves2: seq<Move>, s2: State)
    requires i < |checks| && j < |checks| && checks[i].status.QuorumCritical? && checks[j].status.QuorumCritical?
    requires checks[i].pod != checks[j].pod && ',' !in checks[i].pod && ',' !in checks[j].pod
    ensures Reaches(Start(|checks|), moves1, checks, s1) && s1.main.Returned?
    ensures Reaches(Start(|checks|), moves2, checks, s2) && s2.main.Returned?
    ensures Render(TallyOf(s1.collected)) != Render(TallyOf(s2.collected))
  {
    var x, y, z := checks[i], checks[j], [];
    moves1, s1, moves2, s2, z := EitherComesFirst(checks, i, j);
    var t := TallyOf(z);
    TallyAfterCritical(x, y, z);
    TallyAfterCritical(y, x, z);
    RenderDiffers(t.ok, t.unavailable, x.pod, y.pod, t.critical);
  }

  lemma TwoSends(s: State, i: nat, j: nat, last: seq<Move>, checks: seq<Check>, s': State)
    requires |s.workers| == |checks| && Enabled(s, Send(i)) && Enabled(Apply(s, Send(i), checks), Send(j))
    requires Reaches(Apply(Apply(s, Send(i), checks), Send(j), checks), last, checks, s')
    ensures Reaches(s, [Send(i), Send(j)] + last, checks, s')
  {
    var moves := [Send(i), Send(j)] + last;
    assert moves[1..] == [Send(j)] + last && moves[1..][1..] == last;
    assert Reaches(Apply(s, Send(i), checks), moves[1..], checks, s');
  }
}
