/**
  A simple ini codec: one `name=value` line per key, with a backslash before `=`, line breaks and backslashes; a key
  that is repeated is set again. It meets what the restart decision assumes about configuration text.
*/
module IniCodec {
  import opened Wrappers
  import opened Decimal
  import opened ServerConfig

  predicate Special(c: char) {
    c == '\\' || c == '=' || c == '\n'
  }

  function Quote(s: string): string {
    if s == [] then [] else (if Special(s[0]) then ['\\', s[0]] else [s[0]]) + Quote(s[1..])
  }

  /** The text up to the first `stop` that is not quoted, and what comes after it. */
  function Scan(s: string, stop: char): (r: Option<(string, string)>)
    ensures r.Some? ==> |r.value.1| < |s|
    decreases |s|
  {
    if s == [] then None
    else if s[0] == stop then Some(("", s[1..]))
    else
      var quoted := s[0] == '\\';
      if quoted && |s| == 1 then None
      else
        var rest := Scan(if quoted then s[2..] else s[1..], stop);
        if rest.None? then None else Some(([if quoted then s[1] else s[0]] + rest.value.0, rest.value.1))
  }

  function LoadKeys(s: string): Option<Ini>
    decreases |s|
  {
    if s == [] then Some([])
    else
      var name := Scan(s, '=');
      var value := if name.None? then None else Scan(name.value.1, '\n');
      var rest := if value.None? then None else LoadKeys(value.value.1);
      if rest.None? then None else Some([Key(name.value.0, value.value.0)] + rest.value)
  }

  function LoadLines(s: string): Option<Ini> {
    var keys := LoadKeys(s);
    if keys.None? then None else Some(Assign([], keys.value))
  }

  function WriteLines(ini: Ini): string {
    if ini == [] then [] else Quote(ini[0].name) + ['='] + (Quote(ini[0].value) + ['\n'] + WriteLines(ini[1..]))
  }

  function LineCodec(): Codec {
    Codec(LoadLines, WriteLines)
  }

  lemma {:induction false} ScanQuoted(a: string, stop: char, rest: string)
    requires stop == '=' || stop == '\n'
    ensures Scan(Quote(a) + [stop] + rest, stop) == Some((a, rest))
    decreases |a|
  {
    var s := Quote(a) + [stop] + rest;
    if a == [] {
      assert s == [stop] + rest;
    } else {
      ScanQuoted(a[1..], stop, rest);
      assert a == [a[0]] + a[1..];
      assert (if Special(a[0]) then s[2..] else s[1..]) == Quote(a[1..]) + [stop] + rest;
    }
  }

  /** Reading a line and what follows it. */
  lemma LoadLine(k: Key, rest: string)
    requires LoadKeys(rest).Some?
    ensures LoadKeys(Quote(k.name) + ['='] + (Quote(k.value) + ['\n'] + rest)) == Some([k] + LoadKeys(rest).value)
  {
    var tail := Quote(k.value) + ['\n'] + rest;
    var s := Quote(k.name) + ['='] + tail;
    ScanQuoted(k.name, '=', tail);
    ScanQuoted(k.value, '\n', rest);
    assert s != [];
  }

  lemma {:induction false} LoadWritten(ini: Ini)
    ensures LoadKeys(WriteLines(ini)) == Some(ini)
    decreases |ini|
  {
    if ini != [] {
      LoadWritten(ini[1..]);
      LoadLine(ini[0], WriteLines(ini[1..]));
      assert ini == [ini[0]] + ini[1..];
    }
  }

  lemma {:induction false} NewKeyAppends(ini: Ini, k: Key)
    requires forall i :: 0 <= i < |ini| ==> ini[i].name != k.name
    ensures NewKey(ini, k) == ini + [k]
    decreases |ini|
  {
    if ini != [] {
      NewKeyAppends(ini[1..], k);
    }
  }

  lemma {:induction false} AssignDistinctKeys(ini: Ini)
    requires Distinct(ini)
    ensures Assign([], ini) == ini
    decreases |ini|
  {
    if ini != [] {
      var n := |ini| - 1;
      AssignDistinctKeys(ini[..n]);
      NewKeyAppends(ini[..n], ini[n]);
      assert ini == ini[..n] + [ini[n]];
    }
  }

  lemma DistinctRoundTrips(ini: Ini)
    requires Distinct(ini)
    ensures RoundTrips(LineCodec(), ini)
  {
    LoadWritten(ini);
    AssignDistinctKeys(ini);
  }

  /** There is a codec that meets the assumption of the restart decision, for every name of a cluster. */
  lemma LineCodecIsFaithful(name: string)
    ensures Faithful(LineCodec(), name)
  {
    var c := LineCodec();
    forall s | c.load(s).Some?
      ensures Distinct(c.load(s).value) && RoundTrips(c, WithoutHints(c.load(s).value))
    {
      AssignDistinct([], LoadKeys(s).value);
      WithoutHintsDistinct(c.load(s).value);
      DistinctRoundTrips(WithoutHints(c.load(s).value));
    }
    forall n: Count, s | c.load(s).Some?
      ensures RoundTrips(c, OperatorConf(name, n, c.load(s).value))
    {
      AssignDistinct([], OperatorKeys(name, n, c.load(s).value));
      DistinctRoundTrips(OperatorConf(name, n, c.load(s).value));
    }
    assert c.load("") == Some([]);
  }
}
