/** Reconciliation of the ports of the client Service. */
module ServicePorts {

  datatype Port = Port(name: string, number: int, appProtocol: string, nodePort: int)

  type PortMap = map<string, Port>

  // ---- The desired ports ----

  /** One entry of the operator's table of ports, and whether the cluster's settings ask for it. */
  datatype Rule = Rule(wanted: bool, name: string, number: int, appProtocol: string)

  /** The ports the table asks for; a later entry replaces an earlier one of the same name. */
  function GenerateServicePortsMap(table: seq<Rule>): PortMap {
    if table == [] then map[]
    else
      var m, last := GenerateServicePortsMap(table[..|table| - 1]), table[|table| - 1];
      if last.wanted then m[last.name := Port(last.name, last.number, last.appProtocol, 0)] else m
  }

  /** Every port is filed under its own name and has no node port yet. */
  predicate WellKeyed(m: PortMap) {
    forall k :: k in m ==> m[k].name == k && m[k].nodePort == 0
  }

  lemma {:induction false} GeneratedIsWellKeyed(table: seq<Rule>)
    ensures WellKeyed(GenerateServicePortsMap(table))
    decreases |table|
  {
    if table != [] {
      GeneratedIsWellKeyed(table[..|table| - 1]);
    }
  }

  /** The table has an entry of the name that is asked for, and none after `i`. */
  predicate LastWanted(table: seq<Rule>, name: string, i: nat) {
    && i < |table| && table[i].wanted && table[i].name == name
    && forall j :: i < j < |table| ==> !(table[j].wanted && table[j].name == name)
  }

  predicate Wanted(table: seq<Rule>, name: string) {
    exists i :: 0 <= i < |table| && table[i].wanted && table[i].name == name
  }

  lemma WantedAppend(table: seq<Rule>, name: string)
    requires table != []
    ensures var n := |table| - 1;
            Wanted(table, name) <==> Wanted(table[..n], name) || (table[n].wanted && table[n].name == name)
  {
    var n := |table| - 1;
    if Wanted(table[..n], name) {
      var i :| 0 <= i < n && table[..n][i].wanted && table[..n][i].name == name;
      assert table[i] == table[..n][i];
    }
    if i :| 0 <= i < |table| && table[i].wanted && table[i].name == name {
      if i < n {
        assert table[..n][i] == table[i];
      }
    }
  }

  /** There is a port of the name exactly when some entry of the name is asked for. */
  lemma {:induction false} GeneratedIffWanted(table: seq<Rule>, name: string)
    ensures name in GenerateServicePortsMap(table) <==> Wanted(table, name)
    decreases |table|
  {
    if table != [] {
      GeneratedIffWanted(table[..|table| - 1], name);
      WantedAppend(table, name);
    }
  }

  /** The port is as the last such entry says. */
  lemma {:induction false} GeneratedPort(table: seq<Rule>, name: string, i: nat)
    requires LastWanted(table, name, i)
    ensures name in GenerateServicePortsMap(table)
    ensures GenerateServicePortsMap(table)[name] == Port(name, table[i].number, table[i].appProtocol, 0)
    decreases |table|
  {
    var n := |table| - 1;
    if i < n {
      assert table[..n][i] == table[i];
      GeneratedPort(table[..n], name, i);
    }
  }

  // ---- Updating the port list ----

  /** The existing ports that are still wanted, in their order, each with its node port; first occurrence only. */
  function Kept(existing: seq<Port>, m: PortMap): seq<Port> {
    if existing == [] then []
    else
      var p := existing[0];
      if p.name in m then [m[p.name].(nodePort := p.nodePort)] + Kept(existing[1..], m - {p.name})
      else Kept(existing[1..], m)
  }

  function Left(existing: seq<Port>, m: PortMap): PortMap {
    if existing == [] then m else Left(existing[1..], m - {existing[0].name})
  }

  function Names(ports: seq<Port>): set<string> {
    set i | 0 <= i < |ports| :: ports[i].name
  }

  predicate Distinct(ports: seq<Port>) {
    forall i, j :: 0 <= i < j < |ports| ==> ports[i].name != ports[j].name
  }

  /** `ports` lists the values of `m` in some order. */
  predicate Lists(ports: seq<Port>, m: PortMap) {
    && Distinct(ports) && Names(ports) == m.Keys
    && forall i :: 0 <= i < |ports| ==> ports[i].name in m && ports[i] == m[ports[i].name]
  }

  /** What `updatePorts` may return, the order in which Go ranges over a map being arbitrary. */
  predicate IsUpdate(existing: seq<Port>, m: PortMap, out: seq<Port>) {
    var kept := Kept(existing, m);
    kept <= out && Lists(out[|kept|..], Left(existing, m))
  }

  method UpdatePorts(existing: seq<Port>, desired: PortMap) returns (out: seq<Port>)
    requires WellKeyed(desired)
    ensures IsUpdate(existing, desired, out)
  {
    var ports := desired;
    out := [];
    for i := 0 to |existing|
      invariant WellKeyed(ports)
      invariant out + Kept(existing[i..], ports) == Kept(existing, desired)
      invariant Left(existing[i..], ports) == Left(existing, desired)
    {
      assert existing[i..][1..] == existing[i + 1..];
      var p := existing[i];
      if p.name in ports {
        out := out + [ports[p.name].(nodePort := p.nodePort)];
        ports := ports - {p.name};
      } else {
        assert ports - {p.name} == ports;
      }
    }
    ghost var kept := out;
    var rest := PortsInSomeOrder(ports);
    out := out + rest;
    assert existing[|existing|..] == [];
    assert out[|kept|..] == rest;
  }

  /** Go's `range` over a map: every entry once, in an order of its own. */
  method PortsInSomeOrder(desired: PortMap) returns (rest: seq<Port>)
    requires WellKeyed(desired)
    ensures Lists(rest, desired)
  {
    var ports := desired;
    rest := [];
    while ports.Keys != {}
      invariant ports.Keys <= desired.Keys
      invariant Lists(rest, desired - ports.Keys)
      decreases |ports.Keys|
    {
      var name :| name in ports.Keys;
      var p := desired[name];
      ListsExtends(rest, desired - ports.Keys, p);
      OneMore(desired, ports.Keys, name);
      rest := rest + [p];
      ports := ports - {name};
    }
    assert desired - {} == desired;
  }

  lemma OneMore(desired: PortMap, names: set<string>, name: string)
    requires name in names && names <= desired.Keys
    ensures desired - (names - {name}) == (desired - names)[name := desired[name]]
  {
  }

  lemma ListsExtends(ports: seq<Port>, m: PortMap, p: Port)
    requires Lists(ports, m) && p.name !in m
    ensures Lists(ports + [p], m[p.name := p])
  {
    var ports' := ports + [p];
    forall i | 0 <= i < |ports|
      ensures ports[i].name != p.name && ports[i].name in Names(ports')
    {
      assert ports[i].name in Names(ports);
      assert ports'[i] == ports[i];
    }
    assert ports'[|ports|].name == p.name;
    assert Names(ports') == Names(ports) + {p.name};
  }

  // ---- What an update is ----

  /** The position of the first port with the name, or the length of the list. */
  function FirstIndex(ports: seq<Port>, name: string): nat
    ensures FirstIndex(ports, name) <= |ports|
  {
    if ports == [] || ports[0].name == name then 0 else 1 + FirstIndex(ports[1..], name)
  }

  /** The node port of the first existing port with the name, 0 if there is none. */
  function FirstNodePort(ports: seq<Port>, name: string): int {
    if FirstIndex(ports, name) < |ports| then ports[FirstIndex(ports, name)].nodePort else 0
  }

  lemma {:induction false} FirstIndexIsFirst(ports: seq<Port>, name: string)
    ensures var k := FirstIndex(ports, name);
            && (k < |ports| ==> ports[k].name == name)
            && forall i :: 0 <= i < k ==> ports[i].name != name
    decreases |ports|
  {
    if ports != [] {
      FirstIndexIsFirst(ports[1..], name);
    }
  }

  /** A name other than the first one is found one position later than in the rest. */
  lemma FirstIndexSkips(ports: seq<Port>, name: string)
    requires ports != [] && ports[0].name != name
    ensures FirstIndex(ports, name) == 1 + FirstIndex(ports[1..], name)
    ensures FirstNodePort(ports, name) == FirstNodePort(ports[1..], name)
  {
  }

  /** Each kept port is the desired one with the node port of the first existing port of that name. */
  lemma {:induction false} KeptAre(existing: seq<Port>, m: PortMap)
    requires WellKeyed(m)
    ensures forall i :: 0 <= i < |Kept(existing, m)| ==>
              var p := Kept(existing, m)[i];
              && p.name in m && FirstIndex(existing, p.name) < |existing|
              && p == m[p.name].(nodePort := FirstNodePort(existing, p.name))
    decreases |existing|
  {
    if existing != [] {
      var p, rest := existing[0], existing[1..];
      var m' := if p.name in m then m - {p.name} else m;
      KeptAre(rest, m');
      var kept' := Kept(rest, m');
      forall i | 0 <= i < |kept'|
        ensures FirstIndex(existing, kept'[i].name) < |existing|
        ensures FirstNodePort(existing, kept'[i].name) == FirstNodePort(rest, kept'[i].name)
      {
        FirstIndexSkips(existing, kept'[i].name);
      }
    }
  }

  /** Kept ports are in the order of their first occurrences. */
  lemma {:induction false} KeptOrder(existing: seq<Port>, m: PortMap, i: nat, j: nat)
    requires WellKeyed(m) && i < j < |Kept(existing, m)|
    ensures FirstIndex(existing, Kept(existing, m)[i].name) < FirstIndex(existing, Kept(existing, m)[j].name)
    decreases |existing|
  {
    var p, rest := existing[0], existing[1..];
    if p.name in m {
      var m' := m - {p.name};
      var kept' := Kept(rest, m');
      KeptAre(rest, m');
      FirstIndexSkips(existing, kept'[j - 1].name);
      if i > 0 {
        KeptOrder(rest, m', i - 1, j - 1);
        FirstIndexSkips(existing, kept'[i - 1].name);
      }
    } else {
      KeptAre(rest, m);
      KeptOrder(rest, m, i, j);
      FirstIndexSkips(existing, Kept(rest, m)[i].name);
      FirstIndexSkips(existing, Kept(rest, m)[j].name);
    }
  }

  lemma {:induction false} LeftIs(existing: seq<Port>, m: PortMap)
    ensures Left(existing, m) == m - Names(existing)
    decreases |existing|
  {
    if existing != [] {
      LeftIs(existing[1..], m - {existing[0].name});
      assert Names(existing) == {existing[0].name} + Names(existing[1..]) by {
        assert forall i :: 1 <= i < |existing| ==> existing[i] == existing[1..][i - 1];
        assert forall i :: 0 <= i < |existing[1..]| ==> existing[1..][i] == existing[i + 1];
      }
      assert m - {existing[0].name} - Names(existing[1..]) == m - Names(existing);
    }
  }

  lemma {:induction false} KeptNames(existing: seq<Port>, m: PortMap)
    requires WellKeyed(m)
    ensures Names(Kept(existing, m)) == Names(existing) * m.Keys
    decreases |existing|
  {
    if existing != [] {
      var p, rest := existing[0], existing[1..];
      var m' := if p.name in m then m - {p.name} else m;
      KeptNames(rest, m');
      assert Names(existing) == {p.name} + Names(rest) by {
        assert forall i :: 1 <= i < |existing| ==> existing[i] == rest[i - 1];
        assert forall i :: 0 <= i < |rest| ==> rest[i] == existing[i + 1];
      }
      if p.name in m {
        NamesCons(m[p.name].(nodePort := p.nodePort), Kept(rest, m'));
      }
    }
  }

  lemma NamesCons(p: Port, ports: seq<Port>)
    ensures Names([p] + ports) == {p.name} + Names(ports)
  {
    var all := [p] + ports;
    assert all[0] == p && forall i :: 0 <= i < |ports| ==> all[i + 1] == ports[i];
    assert forall i :: 1 <= i < |all| ==> all[i] == ports[i - 1];
  }

  lemma NoNames(ports: seq<Port>)
    ensures Names(ports) == {} <==> ports == []
  {
    if ports != [] {
      assert ports[0].name in Names(ports);
    }
  }

  lemma NamesConcat(a: seq<Port>, b: seq<Port>)
    ensures Names(a + b) == Names(a) + Names(b)
  {
    var all := a + b;
    assert forall i :: 0 <= i < |a| ==> all[i] == a[i];
    assert forall i :: 0 <= i < |b| ==> all[i + |a|] == b[i];
    assert forall i :: |a| <= i < |all| ==> all[i] == b[i - |a|];
  }

  /** The list holds exactly the desired ports, each once, with the node port of the first existing namesake. */
  ghost predicate Correct(existing: seq<Port>, m: PortMap, out: seq<Port>) {
    && Distinct(out) && Names(out) == m.Keys
    && forall i :: 0 <= i < |out| ==>
         && out[i].name in m
         && out[i] == m[out[i].name].(nodePort := FirstNodePort(existing, out[i].name))
  }

  /** The ports that were there come first and keep their order. */
  ghost predicate OrderKept(existing: seq<Port>, out: seq<Port>) {
    forall i, j :: 0 <= i < j < |out| && out[j].name in Names(existing) ==>
      FirstIndex(existing, out[i].name) < FirstIndex(existing, out[j].name) < |existing|
  }

  lemma AbsentHasNoIndex(existing: seq<Port>, name: string)
    ensures name in Names(existing) <==> FirstIndex(existing, name) < |existing|
  {
    FirstIndexIsFirst(existing, name);
  }

  /** Entry `i` of an update: one of the kept ports, or one that was not there before. */
  lemma UpdateEntry(existing: seq<Port>, m: PortMap, out: seq<Port>, i: nat)
    requires WellKeyed(m) && IsUpdate(existing, m, out) && i < |out|
    ensures out[i].name in m && out[i] == m[out[i].name].(nodePort := FirstNodePort(existing, out[i].name))
    ensures i < |Kept(existing, m)| <==> out[i].name in Names(existing)
  {
    var kept := Kept(existing, m);
    AbsentHasNoIndex(existing, out[i].name);
    if i < |kept| {
      KeptAre(existing, m);
      assert out[i] == kept[i];
    } else {
      LeftIs(existing, m);
      assert out[i] == out[|kept|..][i - |kept|];
    }
  }

  lemma UpdateNames(existing: seq<Port>, m: PortMap, out: seq<Port>)
    requires WellKeyed(m) && IsUpdate(existing, m, out)
    ensures Names(out) == m.Keys
  {
    var kept := Kept(existing, m);
    KeptNames(existing, m);
    LeftIs(existing, m);
    NamesConcat(kept, out[|kept|..]);
    assert out == kept + out[|kept|..];
    assert (Names(existing) * m.Keys) + (m - Names(existing)).Keys == m.Keys;
  }

  /** Two kept ports are in the order of their first occurrences. */
  lemma KeptInOrder(existing: seq<Port>, m: PortMap, out: seq<Port>, i: nat, j: nat)
    requires WellKeyed(m) && Kept(existing, m) <= out && i < j < |Kept(existing, m)|
    ensures FirstIndex(existing, out[i].name) < FirstIndex(existing, out[j].name)
  {
    KeptOrder(existing, m, i, j);
  }

  lemma ListedOnce(rest: seq<Port>, m: PortMap, out: seq<Port>, n: nat, i: nat, j: nat)
    requires n <= |out| && rest == out[n..] && Lists(rest, m) && n <= i < j < |out|
    ensures out[i].name != out[j].name
  {
    assert out[i] == rest[i - n] && out[j] == rest[j - n];
  }

  lemma UpdateOrder(existing: seq<Port>, m: PortMap, out: seq<Port>, i: nat, j: nat)
    requires WellKeyed(m) && IsUpdate(existing, m, out) && i < j < |out|
    ensures out[i].name != out[j].name
    ensures out[j].name in Names(existing) ==>
              FirstIndex(existing, out[i].name) < FirstIndex(existing, out[j].name) < |existing|
  {
    UpdateEntry(existing, m, out, i);
    UpdateEntry(existing, m, out, j);
    AbsentHasNoIndex(existing, out[j].name);
    var n := |Kept(existing, m)|;
    if j < n {
      KeptInOrder(existing, m, out, i, j);
    } else if n <= i {
      ListedOnce(out[n..], Left(existing, m), out, n, i, j);
    }
  }

  /**
    Every result of `updatePorts` holds each desired port exactly once and nothing else, with the node port of the
    first existing port of that name; the ports that were there come first, in their old order.
  */
  lemma UpdateIsCorrect(existing: seq<Port>, m: PortMap, out: seq<Port>)
    requires WellKeyed(m) && IsUpdate(existing, m, out)
    ensures Correct(existing, m, out) && OrderKept(existing, out)
  {
    UpdateNames(existing, m, out);
    forall i: nat | i < |out|
      ensures out[i].name in m && out[i] == m[out[i].name].(nodePort := FirstNodePort(existing, out[i].name))
    {
      UpdateEntry(existing, m, out, i);
    }
    forall i: nat, j: nat | i < j < |out|
      ensures out[i].name != out[j].name
      ensures out[j].name in Names(existing) ==>
              FirstIndex(existing, out[i].name) < FirstIndex(existing, out[j].name) < |existing|
    {
      UpdateOrder(existing, m, out, i, j);
    }
  }

  // ---- Idempotence ----

  lemma {:induction false} KeptOfComplete(out: seq<Port>, m: PortMap)
    requires Distinct(out)
    requires forall i :: 0 <= i < |out| ==> out[i].name in m && out[i] == m[out[i].name].(nodePort := out[i].nodePort)
    ensures Kept(out, m) == out
    decreases |out|
  {
    if out != [] {
      KeptOfComplete(out[1..], m - {out[0].name});
      assert out == [out[0]] + out[1..];
    }
  }

  /** Updating a list that is already correct returns that list, whatever the order of iteration. */
  lemma UpdateIsIdempotent(existing: seq<Port>, m: PortMap, out: seq<Port>, again: seq<Port>)
    requires WellKeyed(m) && IsUpdate(existing, m, out) && IsUpdate(out, m, again)
    ensures again == out
  {
    UpdateIsCorrect(existing, m, out);
    UpdateOfCorrectIsItself(m, out, again);
  }

  lemma UpdateOfCorrectIsItself(m: PortMap, out: seq<Port>, again: seq<Port>)
    requires Distinct(out) && Names(out) == m.Keys && IsUpdate(out, m, again)
    requires forall i :: 0 <= i < |out| ==> out[i].name in m && out[i] == m[out[i].name].(nodePort := out[i].nodePort)
    ensures again == out
  {
    KeptOfComplete(out, m);
    LeftIs(out, m);
    var rest := again[|out|..];
    NoNames(rest);
    assert again == out + rest;
  }

  // ---- Node ports of ClusterIP services ----

  function Cleared(ports: seq<Port>): (r: seq<Port>)
    ensures |r| == |ports| && forall i :: 0 <= i < |r| ==> r[i] == ports[i].(nodePort := 0)
  {
    seq(|ports|, i requires 0 <= i < |ports| => ports[i].(nodePort := 0))
  }

  /** The loop that clears the node ports in place. */
  method ClearNodePorts(ports: array<Port>)
    modifies ports
    ensures ports[..] == Cleared(old(ports[..]))
  {
    for i := 0 to ports.Length
      invariant forall k :: 0 <= k < i ==> ports[k] == old(ports[k]).(nodePort := 0)
      invariant forall k :: i <= k < ports.Length ==> ports[k] == old(ports[k])
    {
      ports[i] := ports[i].(nodePort := 0);
    }
  }

  /** For a ClusterIP service too, a second reconcile changes nothing. */
  lemma ClearedUpdateIsIdempotent(existing: seq<Port>, m: PortMap, out: seq<Port>, again: seq<Port>)
    requires WellKeyed(m) && IsUpdate(existing, m, out) && IsUpdate(Cleared(out), m, again)
    ensures Cleared(again) == Cleared(out) == again
  {
    UpdateIsCorrect(existing, m, out);
    var c := Cleared(out);
    assert Names(c) == Names(out) by {
      assert forall i :: 0 <= i < |out| ==> c[i].name == out[i].name;
    }
    UpdateOfCorrectIsItself(m, c, again);
  }
}
