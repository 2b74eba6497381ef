/** The list of enabled plugins and its text forms. */
module Plugins {
  import opened Text

  const REQUIRED: seq<string> := ["rabbitmq_peer_discovery_k8s", "rabbitmq_prometheus", "rabbitmq_management"]

  predicate NoDuplicates(s: seq<string>) {
    forall i, j :: 0 <= i < j < |s| ==> s[i] != s[j]
  }

  /** First occurrences only. */
  function Dedup(s: seq<string>): seq<string> {
    if s == [] then []
    else
      var front, last := Dedup(s[..|s| - 1]), s[|s| - 1];
      if last in front then front else front + [last]
  }

  function Desired(additional: seq<string>): seq<string> {
    Dedup(REQUIRED + additional)
  }

  /** The loop with its set of names already seen. */
  method DesiredPlugins(additional: seq<string>) returns (enabled: seq<string>)
    ensures enabled == Desired(additional)
  {
    var all := REQUIRED + additional;
    var check: map<string, bool> := map[];
    enabled := [];
    for i := 0 to |all|
      invariant enabled == Dedup(all[..i])
      invariant forall p :: p in check <==> p in enabled
    {
      assert all[..i + 1][..i] == all[..i];
      if all[i] !in check {
        check := check[all[i] := true];
        enabled := enabled + [all[i]];
      }
    }
    assert all[..|all|] == all;
  }

  /** The position of the first occurrence, or the length of the list. */
  function FirstIndex(s: seq<string>, p: string): nat {
    if s == [] || s[0] == p then 0 else 1 + FirstIndex(s[1..], p)
  }

  lemma {:induction false} FirstIndexSnoc(s: seq<string>, last: string, p: string)
    ensures FirstIndex(s, p) <= |s| && (FirstIndex(s, p) < |s| <==> p in s)
    ensures FirstIndex(s + [last], p) == if p in s then FirstIndex(s, p) else if p == last then |s| else |s| + 1
    decreases |s|
  {
    if s == [] {
      assert ([last])[1..] == [];
    } else {
      assert (s + [last])[1..] == s[1..] + [last];
      assert p in s <==> p == s[0] || p in s[1..];
      FirstIndexSnoc(s[1..], last, p);
    }
  }

  /** No duplicates, the same members, and the order of first occurrences. */
  lemma {:induction false} DedupIsOrdered(s: seq<string>)
    ensures NoDuplicates(Dedup(s))
    ensures forall p :: p in Dedup(s) <==> p in s
    ensures forall i, j :: 0 <= i < j < |Dedup(s)| ==> FirstIndex(s, Dedup(s)[i]) < FirstIndex(s, Dedup(s)[j])
    decreases |s|
  {
    if s != [] {
      var n := |s| - 1;
      var front, last := s[..n], s[n];
      DedupIsOrdered(front);
      assert s == front + [last];
      var d, r := Dedup(front), Dedup(s);
      forall i, j | 0 <= i < j < |r|
        ensures FirstIndex(s, r[i]) < FirstIndex(s, r[j])
      {
        assert r[i] == d[i] && d[i] in d;
        FirstIndexSnoc(front, last, r[i]);
        FirstIndexSnoc(front, last, r[j]);
        if j < |d| {
          assert r[j] == d[j] && d[j] in d;
        }
      }
    }
  }

  lemma {:induction false} DedupExtends(s: seq<string>, t: seq<string>)
    ensures Dedup(s) <= Dedup(s + t)
    decreases |t|
  {
    if t == [] {
      assert s + t == s;
    } else {
      var front := t[..|t| - 1];
      assert (s + t)[..|s + t| - 1] == s + front;
      DedupExtends(s, front);
    }
  }

  lemma {:induction false} DedupOfDistinct(s: seq<string>)
    requires NoDuplicates(s)
    ensures Dedup(s) == s
    decreases |s|
  {
    if s != [] {
      var n := |s| - 1;
      DedupOfDistinct(s[..n]);
      assert s == s[..n] + [s[n]];
    }
  }

  lemma RequiredAreDistinct()
    ensures NoDuplicates(REQUIRED)
  {
  }

  /** The required plugins come first; the rest follows in the order of first mention, without repetition. */
  lemma DesiredIsOrdered(additional: seq<string>)
    ensures REQUIRED <= Desired(additional)
    ensures NoDuplicates(Desired(additional))
    ensures forall p :: p in Desired(additional) <==> p in REQUIRED || p in additional
    ensures forall i, j :: 0 <= i < j < |Desired(additional)| ==>
              FirstIndex(REQUIRED + additional, Desired(additional)[i]) <
              FirstIndex(REQUIRED + additional, Desired(additional)[j])
  {
    RequiredAreDistinct();
    DedupOfDistinct(REQUIRED);
    DedupExtends(REQUIRED, additional);
    DedupIsOrdered(REQUIRED + additional);
  }

  // ---- Text ----

  /** `strings.Split` on one character. */
  function Split(s: string, sep: char): seq<string> {
    if s == [] then [""]
    else
      var rest := Split(s[1..], sep);
      if s[0] == sep then [""] + rest else [[s[0]] + rest[0]] + rest[1..]
  }

  lemma {:induction false} SplitWord(w: string, sep: char)
    requires sep !in w
    ensures Split(w, sep) == [w]
    decreases |w|
  {
    if w != [] {
      SplitWord(w[1..], sep);
      assert w == [w[0]] + w[1..];
    }
  }

  lemma {:induction false} SplitFirst(w: string, sep: char, rest: string)
    requires sep !in w
    ensures Split(w + [sep] + rest, sep) == [w] + Split(rest, sep)
    decreases |w|
  {
    var s := w + [sep] + rest;
    if w == [] {
      assert s[1..] == rest;
    } else {
      assert s[1..] == w[1..] + [sep] + rest;
      SplitFirst(w[1..], sep, rest);
      assert w == [w[0]] + w[1..];
    }
  }

  /** Splitting a joined list recovers it when no part contains the separator. */
  lemma {:induction false} SplitJoin(parts: seq<string>, sep: char)
    requires parts != [] && forall i :: 0 <= i < |parts| ==> sep !in parts[i]
    ensures Split(Join(parts, [sep]), sep) == parts
    decreases |parts|
  {
    if |parts| == 1 {
      SplitWord(parts[0], sep);
    } else {
      SplitJoin(parts[1..], sep);
      SplitFirst(parts[0], sep, Join(parts[1..], [sep]));
      assert parts == [parts[0]] + parts[1..];
    }
  }

  /** The characters of a plugin name: the pattern `^\\w+$`. */
  predicate IsWord(p: string) {
    p != [] &&
    forall i :: 0 <= i < |p| ==> 'a' <= p[i] <= 'z' || 'A' <= p[i] <= 'Z' || '0' <= p[i] <= '9' || p[i] == '_'
  }

  predicate AllWords(s: seq<string>) {
    forall i :: 0 <= i < |s| ==> IsWord(s[i])
  }

  /** The content of the `enabled_plugins` file. */
  function EnabledPluginsFile(additional: seq<string>): string {
    "[" + Join(Desired(additional), ",") + "]."
  }

  lemma WordHasNoSeparator(p: string, sep: char)
    requires IsWord(p) && (sep == ',' || sep == ' ')
    ensures sep !in p
  {
  }

  lemma RequiredAreWords()
    ensures AllWords(REQUIRED)
  {
    assert IsWord(REQUIRED[0]) && IsWord(REQUIRED[1]) && IsWord(REQUIRED[2]);
  }

  /** The list can be read back from its text, for the separators the operator uses. */
  lemma DesiredCanBeReadBack(additional: seq<string>, sep: char)
    requires AllWords(additional) && (sep == ',' || sep == ' ')
    ensures Split(Join(Desired(additional), [sep]), sep) == Desired(additional)
  {
    DesiredIsOrdered(additional);
    RequiredAreWords();
    var d := Desired(additional);
    forall i | 0 <= i < |d|
      ensures sep !in d[i]
    {
      assert d[i] in d;
      WordHasNoSeparator(d[i], sep);
    }
    assert d != [];
    SplitJoin(d, sep);
  }

  /** The file changes exactly when the list without duplicates does. */
  lemma FileChangesIffPluginsDo(a: seq<string>, b: seq<string>)
    requires AllWords(a) && AllWords(b)
    ensures EnabledPluginsFile(a) == EnabledPluginsFile(b) <==> Desired(a) == Desired(b)
  {
    DesiredCanBeReadBack(a, ',');
    DesiredCanBeReadBack(b, ',');
    var x, y := EnabledPluginsFile(a), EnabledPluginsFile(b);
    assert x[1..|x| - 2] == Join(Desired(a), ",") && y[1..|y| - 2] == Join(Desired(b), ",");
  }
}
