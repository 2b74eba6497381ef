/**
  The server configuration ConfigMap: the operator's defaults, the user's configuration merged over generated
  settings, and the decision whether a change needs a restart of the nodes. Parsed ini files are lists of keys in
  file order; text is related to them by a codec.
*/
module ServerConfig {
  import opened Wrappers
  import opened Decimal

  datatype Key = Key(name: string, value: string)

  type Ini = seq<Key>

  // ---- Keys of one section ----

  predicate Distinct(ini: Ini) {
    forall i, j :: 0 <= i < j < |ini| ==> ini[i].name != ini[j].name
  }

  function Lookup(ini: Ini, name: string): Option<string> {
    if ini == [] then None else if ini[0].name == name then Some(ini[0].value) else Lookup(ini[1..], name)
  }

  /** The value of the last key with the name, as when a file sets it several times. */
  function LastOf(keys: seq<Key>, name: string): Option<string> {
    if keys == [] then None
    else
      var last := keys[|keys| - 1];
      if last.name == name then Some(last.value) else LastOf(keys[..|keys| - 1], name)
  }

  /** `NewKey`: sets the value of an existing key in its place, or appends the key. */
  function NewKey(ini: Ini, k: Key): (r: Ini) {
    if ini == [] then [k] else if ini[0].name == k.name then [k] + ini[1..] else [ini[0]] + NewKey(ini[1..], k)
  }

  /** Sets keys one after the other. */
  function Assign(ini: Ini, keys: seq<Key>): Ini
    decreases |keys|
  {
    if keys == [] then ini else NewKey(Assign(ini, keys[..|keys| - 1]), keys[|keys| - 1])
  }

  lemma {:induction false} NewKeySets(ini: Ini, k: Key, name: string)
    ensures Lookup(NewKey(ini, k), name) == if name == k.name then Some(k.value) else Lookup(ini, name)
    decreases |ini|
  {
    if ini == [] {
      assert Lookup([], name) == None;
    } else if ini[0].name != k.name {
      NewKeySets(ini[1..], k, name);
      assert NewKey(ini, k)[1..] == NewKey(ini[1..], k);
    } else {
      assert NewKey(ini, k)[1..] == ini[1..];
    }
  }

  /** A file read over others gives each of its keys its last value and leaves the other keys alone. */
  lemma {:induction false} AssignSets(ini: Ini, keys: seq<Key>, name: string)
    ensures Lookup(Assign(ini, keys), name) ==
            if LastOf(keys, name).Some? then LastOf(keys, name) else Lookup(ini, name)
    decreases |keys|
  {
    if keys != [] {
      var front := keys[..|keys| - 1];
      AssignSets(ini, front, name);
      NewKeySets(Assign(ini, front), keys[|keys| - 1], name);
    }
  }

  lemma {:induction false} NewKeyNames(ini: Ini, k: Key, i: nat)
    requires i < |NewKey(ini, k)|
    ensures NewKey(ini, k)[i] == k || (i < |ini| && NewKey(ini, k)[i] == ini[i])
    decreases |ini|
  {
    if ini != [] && ini[0].name != k.name && i > 0 {
      NewKeyNames(ini[1..], k, i - 1);
    }
  }

  lemma {:induction false} NewKeyDistinct(ini: Ini, k: Key)
    requires Distinct(ini)
    ensures Distinct(NewKey(ini, k))
    decreases |ini|
  {
    if ini != [] && ini[0].name != k.name {
      NewKeyDistinct(ini[1..], k);
      var r := NewKey(ini[1..], k);
      forall j | 0 <= j < |r|
        ensures r[j].name != ini[0].name
      {
        NewKeyNames(ini[1..], k, j);
      }
    }
  }

  lemma {:induction false} AssignDistinct(ini: Ini, keys: seq<Key>)
    requires Distinct(ini)
    ensures Distinct(Assign(ini, keys))
    decreases |keys|
  {
    if keys != [] {
      AssignDistinct(ini, keys[..|keys| - 1]);
      NewKeyDistinct(Assign(ini, keys[..|keys| - 1]), keys[|keys| - 1]);
    }
  }

  // ---- The operator's defaults ----

  const SIZE_HINT: string := "cluster_formation.target_cluster_size_hint"
  const AUTH_MECHANISMS: string := "auth_mechanisms"

  predicate HasPrefix(s: string, prefix: string) {
    prefix <= s
  }

  const DEFAULTS: seq<Key> := [
    Key("log.console", "true"),
    Key("queue_master_locator", "min-masters"),
    Key("disk_free_limit.absolute", "2GB"),
    Key("cluster_partition_handling", "pause_minority"),
    Key("cluster_formation.peer_discovery_backend", "rabbit_peer_discovery_k8s"),
    Key("cluster_formation.k8s.host", "kubernetes.default"),
    Key("cluster_formation.k8s.address_type", "hostname")]

  const DEFAULT_AUTH: seq<Key> := [Key("auth_mechanisms.1", "PLAIN"), Key("auth_mechanisms.2", "AMQPLAIN")]

  predicate AuthConfigured(user: Ini) {
    exists i :: 0 <= i < |user| && HasPrefix(user[i].name, AUTH_MECHANISMS)
  }

  method AreAuthMechanismsConfigured(user: Ini) returns (configured: bool)
    ensures configured == AuthConfigured(user)
  {
    for i := 0 to |user|
      invariant forall j :: 0 <= j < i ==> !HasPrefix(user[j].name, AUTH_MECHANISMS)
    {
      if HasPrefix(user[i].name, AUTH_MECHANISMS) {
        return true;
      }
    }
    return false;
  }

  function OperatorKeys(name: string, replicas: Count, user: Ini): seq<Key> {
    DEFAULTS + [Key(SIZE_HINT, Itoa(replicas)), Key("cluster_name", name)] +
    if AuthConfigured(user) then [] else DEFAULT_AUTH
  }

  function OperatorConf(name: string, replicas: Count, user: Ini): Ini {
    Assign([], OperatorKeys(name, replicas, user))
  }

  predicate NoAuth(keys: seq<Key>) {
    forall i :: 0 <= i < |keys| ==> !HasPrefix(keys[i].name, AUTH_MECHANISMS)
  }

  lemma {:induction false} AssignNoAuth(ini: Ini, keys: seq<Key>)
    requires NoAuth(ini) && NoAuth(keys)
    ensures NoAuth(Assign(ini, keys))
    decreases |keys|
  {
    if keys != [] {
      var front, last := keys[..|keys| - 1], keys[|keys| - 1];
      AssignNoAuth(ini, front);
      var r := NewKey(Assign(ini, front), last);
      forall i | 0 <= i < |r|
        ensures !HasPrefix(r[i].name, AUTH_MECHANISMS)
      {
        NewKeyNames(Assign(ini, front), last, i);
      }
    }
  }

  lemma {:induction false} LookupFinds(ini: Ini, name: string)
    requires Lookup(ini, name).Some?
    ensures exists i :: 0 <= i < |ini| && ini[i].name == name
    decreases |ini|
  {
    if ini[0].name != name {
      LookupFinds(ini[1..], name);
      var i :| 0 <= i < |ini[1..]| && ini[1..][i].name == name;
      assert ini[i + 1].name == name;
    }
  }

  lemma NotAuth(s: string)
    requires s != [] && s[0] != 'a'
    ensures !HasPrefix(s, AUTH_MECHANISMS)
  {
  }

  lemma DefaultsHaveNoAuth(name: string, replicas: Count)
    ensures NoAuth(DEFAULTS + [Key(SIZE_HINT, Itoa(replicas)), Key("cluster_name", name)])
  {
    var keys := DEFAULTS + [Key(SIZE_HINT, Itoa(replicas)), Key("cluster_name", name)];
    forall i | 0 <= i < |keys|
      ensures !HasPrefix(keys[i].name, AUTH_MECHANISMS)
    {
      NotAuth(keys[i].name);
    }
  }

  /** The operator configures SASL mechanisms exactly when the user does not: the two sets never mix. */
  lemma AuthNeverMixes(name: string, replicas: Count, user: Ini)
    ensures AuthConfigured(OperatorConf(name, replicas, user)) <==> !AuthConfigured(user)
    ensures !AuthConfigured(user) ==>
              Lookup(OperatorConf(name, replicas, user), "auth_mechanisms.1") == Some("PLAIN") &&
              Lookup(OperatorConf(name, replicas, user), "auth_mechanisms.2") == Some("AMQPLAIN")
  {
    var base := DEFAULTS + [Key(SIZE_HINT, Itoa(replicas)), Key("cluster_name", name)];
    DefaultsHaveNoAuth(name, replicas);
    var conf := OperatorConf(name, replicas, user);
    if AuthConfigured(user) {
      assert OperatorKeys(name, replicas, user) == base;
      AssignNoAuth([], base);
    } else {
      var keys := OperatorKeys(name, replicas, user);
      var n := |keys|;
      assert keys[n - 1] == DEFAULT_AUTH[1] && keys[..n - 1][n - 2] == DEFAULT_AUTH[0];
      var before := Assign([], keys[..n - 1]);
      NewKeySets(before, keys[n - 1], "auth_mechanisms.2");
      NewKeySets(before, keys[n - 1], "auth_mechanisms.1");
      NewKeySets(Assign([], keys[..n - 1][..n - 2]), keys[..n - 1][n - 2], "auth_mechanisms.1");
      assert "auth_mechanisms.1"[16] != "auth_mechanisms.2"[16];
      LookupFinds(conf, "auth_mechanisms.1");
      var i :| 0 <= i < |conf| && conf[i].name == "auth_mechanisms.1";
      assert HasPrefix(conf[i].name, AUTH_MECHANISMS);
    }
  }

  // ---- Memory ----

  const GIB: int := 1073741824
  const MAX_INT64: int := 0x7fff_ffff_ffff_ffff

  /** `removeHeadroom`; for a non-negative limit Go's division is Dafny's. */
  function RemoveHeadroom(limit: nat): int {
    if limit / 5 > 2 * GIB then limit - 2 * GIB else limit - limit / 5
  }

  /** The headroom is the smaller of a fifth and 2 GiB; a larger limit never leaves less memory to the server. */
  lemma HeadroomIsBoundedAndMonotone(a: nat, b: nat)
    requires a <= b <= MAX_INT64
    ensures RemoveHeadroom(a) == a - (if a / 5 < 2 * GIB then a / 5 else 2 * GIB)
    ensures 0 <= RemoveHeadroom(a) <= a
    ensures RemoveHeadroom(a) <= RemoveHeadroom(b)
    ensures a > 0 ==> RemoveHeadroom(a) > 0
  {
  }

  // ---- The user's configuration ----

  /** What the cluster's settings ask for: the file of TLS defaults, if any, and the keys set one by one after it. */
  datatype Generated = Generated(tlsFile: seq<Key>, keys: seq<Key>)

  /** Appending a file reads all the files appended so far again. */
  function UserConf(g: Generated, user: Ini): Ini {
    Assign(Assign(Assign(Assign([], g.tlsFile), g.keys), g.tlsFile), user)
  }

  /**
    In the user's file a key has the user's value if the user set it, else the value of the TLS defaults, else the
    generated value; no other key appears.
  */
  lemma UserConfPrecedence(g: Generated, user: Ini, name: string)
    ensures Lookup(UserConf(g, user), name) ==
              if LastOf(user, name).Some? then LastOf(user, name)
              else if LastOf(g.tlsFile, name).Some? then LastOf(g.tlsFile, name)
              else LastOf(g.keys, name)
  {
    var tls := Assign([], g.tlsFile);
    var generated := Assign(tls, g.keys);
    AssignSets([], g.tlsFile, name);
    AssignSets(tls, g.keys, name);
    AssignSets(generated, g.tlsFile, name);
    AssignSets(Assign(generated, g.tlsFile), user, name);
  }

  // ---- The ConfigMap ----

  /** Reading and writing ini text. */
  datatype Codec = Codec(load: string -> Option<Ini>, write: Ini -> string)

  const OPERATOR_FILE: string := "operatorDefaults.conf"
  const USER_FILE: string := "userDefinedConfiguration.conf"
  const ADVANCED: string := "advanced.config"
  const ENV: string := "rabbitmq-env.conf"
  const INETRC: string := "erl_inetrc"

  /** `meta` stands for everything the update leaves alone: labels, annotations, other metadata. */
  datatype ConfigMap = ConfigMap(data: map<string, string>, owner: Option<string>, meta: string)

  datatype Spec = Spec(
    name: string, replicas: Count, generated: Generated,
    additionalConfig: string, advancedConfig: string, envConfig: string, erlangInetConfig: string)

  datatype Error = InvalidAdditionalConfig | InvalidEnvConfig | OwnedByAnother | UnreadableDefaults

  predicate HasSubstitution(s: string) {
    exists i :: 0 <= i < |s| && (s[i] == '`' || (s[i] == '$' && i + 1 < |s| && s[i + 1] == '('))
  }

  function UpdateProperty(data: map<string, string>, key: string, value: string): map<string, string> {
    if value == "" then data - {key} else data[key := value]
  }

  /** Removes the keys that start with the size hint's name. */
  function WithoutHints(ini: Ini): Ini {
    if ini == [] then []
    else if HasPrefix(ini[0].name, SIZE_HINT) then WithoutHints(ini[1..])
    else [ini[0]] + WithoutHints(ini[1..])
  }

  ghost predicate RoundTrips(c: Codec, ini: Ini) {
    c.load(c.write(ini)) == Some(ini)
  }

  /** A file that was read has each key once, and can be written and read again after dropping the size hints. */
  ghost predicate Readable(c: Codec) {
    && c.load("") == Some([])
    && (forall s :: c.load(s).Some? ==> Distinct(c.load(s).value))
    && forall s {:trigger RoundTrips(c, WithoutHints(c.load(s).value))} ::
         c.load(s).Some? ==> RoundTrips(c, WithoutHints(c.load(s).value))
  }

  /** Also, the operator's defaults for the cluster's name can be written and read again. */
  ghost predicate Faithful(c: Codec, name: string) {
    && Readable(c)
    && forall n: Count, s {:trigger RoundTrips(c, OperatorConf(name, n, c.load(s).value))} ::
         c.load(s).Some? ==> RoundTrips(c, OperatorConf(name, n, c.load(s).value))
  }

  function OperatorText(cm: ConfigMap): string {
    if OPERATOR_FILE in cm.data then cm.data[OPERATOR_FILE] else ""
  }

  /** `removeConfigNotRequiringNodeRestart` */
  function Stripped(cm: ConfigMap, codec: Codec): Option<ConfigMap> {
    var text := OperatorText(cm);
    if text == "" then Some(cm)
    else if codec.load(text).None? then None
    else Some(cm.(data := cm.data[OPERATOR_FILE := codec.write(WithoutHints(codec.load(text).value))]))
  }

  /** The data with the two configuration files and the three optional ones set or removed. */
  function NewData(data: map<string, string>, operatorText: string, userText: string, spec: Spec): map<string, string> {
    var data := data[OPERATOR_FILE := operatorText];
    var data := data[USER_FILE := userText];
    var data := UpdateProperty(data, ADVANCED, spec.advancedConfig);
    var data := UpdateProperty(data, ENV, spec.envConfig);
    UpdateProperty(data, INETRC, spec.erlangInetConfig)
  }

  function Updated(cm: ConfigMap, spec: Spec, user: Ini, codec: Codec): ConfigMap {
    var operatorText := codec.write(OperatorConf(spec.name, spec.replicas, user));
    var userText := codec.write(UserConf(spec.generated, user));
    ConfigMap(NewData(cm.data, operatorText, userText, spec), Some(spec.name), cm.meta)
  }

  /** The checks after the data has been set, and whether the builder still asks for a restart. */
  function Decide(cm: ConfigMap, updated: ConfigMap, spec: Spec, codec: Codec): Result<(ConfigMap, bool), Error> {
    if HasSubstitution(spec.envConfig) then Err(InvalidEnvConfig)
    else if cm.owner.Some? && cm.owner.value != spec.name then Err(OwnedByAnother)
    else
      var a, b := Stripped(cm, codec), Stripped(updated, codec);
      if a.None? || b.None? then Err(UnreadableDefaults) else Ok((updated, a != b))
  }

  function Update(cm: ConfigMap, spec: Spec, codec: Codec): Result<(ConfigMap, bool), Error> {
    var user := codec.load(spec.additionalConfig);
    if user.None? then Err(InvalidAdditionalConfig) else Decide(cm, Updated(cm, spec, user.value, codec), spec, codec)
  }

  // ---- The restart decision ----

  /** Everything agrees but the defaults, which agree as files once the size hints are dropped. */
  ghost predicate SameUpToHints(a: ConfigMap, b: ConfigMap, codec: Codec) {
    && a.meta == b.meta && a.owner == b.owner
    && a.data - {OPERATOR_FILE} == b.data - {OPERATOR_FILE}
    && var x, y := codec.load(OperatorText(a)), codec.load(OperatorText(b));
       x.Some? && y.Some? && WithoutHints(x.value) == WithoutHints(y.value)
  }

  lemma {:induction false} WithoutHintsKeys(ini: Ini, k: Key)
    ensures k in WithoutHints(ini) <==> k in ini && !HasPrefix(k.name, SIZE_HINT)
    decreases |ini|
  {
    if ini != [] {
      WithoutHintsKeys(ini[1..], k);
      assert ini == [ini[0]] + ini[1..];
    }
  }

  lemma {:induction false} WithoutHintsDistinct(ini: Ini)
    requires Distinct(ini)
    ensures Distinct(WithoutHints(ini))
    decreases |ini|
  {
    if ini != [] {
      WithoutHintsDistinct(ini[1..]);
      var r := WithoutHints(ini[1..]);
      forall i | 0 <= i < |r|
        ensures r[i].name != ini[0].name
      {
        WithoutHintsKeys(ini[1..], r[i]);
      }
    }
  }

  /** Stripped maps with non-empty defaults are equal exactly when the maps are the same up to size hints. */
  lemma StrippedEqual(a: ConfigMap, b: ConfigMap, codec: Codec)
    requires Readable(codec) && Stripped(a, codec).Some? && Stripped(b, codec).Some?
    requires OperatorText(a) != "" && OperatorText(b) != ""
    ensures Stripped(a, codec) == Stripped(b, codec) <==> SameUpToHints(a, b, codec)
  {
    var x, y := codec.load(OperatorText(a)).value, codec.load(OperatorText(b)).value;
    assert RoundTrips(codec, WithoutHints(x)) && RoundTrips(codec, WithoutHints(y));
    var p, q := Stripped(a, codec).value, Stripped(b, codec).value;
    assert p.data - {OPERATOR_FILE} == a.data - {OPERATOR_FILE};
    assert q.data - {OPERATOR_FILE} == b.data - {OPERATOR_FILE};
    if p == q {
      assert p.data[OPERATOR_FILE] == q.data[OPERATOR_FILE];
    }
    if SameUpToHints(a, b, codec) {
      assert p.data == (a.data - {OPERATOR_FILE})[OPERATOR_FILE := codec.write(WithoutHints(x))];
      assert q.data == (b.data - {OPERATOR_FILE})[OPERATOR_FILE := codec.write(WithoutHints(y))];
    }
  }

  lemma NotHint(s: string)
    requires s != [] && s[0] != 'c'
    ensures !HasPrefix(s, SIZE_HINT)
  {
    assert SIZE_HINT[0] == 'c';
  }

  /** The operator's defaults are never empty, also without the size hints. */
  lemma DefaultsRemain(name: string, replicas: Count, user: Ini)
    ensures WithoutHints(OperatorConf(name, replicas, user)) != []
  {
    var keys := OperatorKeys(name, replicas, user);
    var conf := OperatorConf(name, replicas, user);
    assert keys[0] == DEFAULTS[0];
    LastOfFinds(keys, 0);
    AssignSets([], keys, "log.console");
    LookupFinds(conf, "log.console");
    var i :| 0 <= i < |conf| && conf[i].name == "log.console";
    NotHint(conf[i].name);
    WithoutHintsKeys(conf, conf[i]);
  }

  lemma {:induction false} LastOfFinds(keys: seq<Key>, i: nat)
    requires i < |keys|
    ensures LastOf(keys, keys[i].name).Some?
    decreases |keys|
  {
    var n := |keys| - 1;
    if i < n {
      LastOfFinds(keys[..n], i);
    }
  }

  lemma FileNamesDiffer()
    ensures OPERATOR_FILE != USER_FILE && OPERATOR_FILE != ADVANCED && OPERATOR_FILE != ENV && OPERATOR_FILE != INETRC
    ensures USER_FILE != ADVANCED && USER_FILE != ENV && USER_FILE != INETRC
    ensures ADVANCED != ENV && ADVANCED != INETRC && ENV != INETRC
  {
  }

  lemma NewDataOperatorFile(data: map<string, string>, operatorText: string, userText: string, spec: Spec)
    ensures var d := NewData(data, operatorText, userText, spec);
            OPERATOR_FILE in d && d[OPERATOR_FILE] == operatorText
  {
    FileNamesDiffer();
  }

  /** The defaults of an updated map read back as the operator's configuration. */
  lemma UpdatedDefaults(cm: ConfigMap, spec: Spec, user: Ini, codec: Codec)
    requires Faithful(codec, spec.name) && codec.load(spec.additionalConfig) == Some(user)
    ensures var text := OperatorText(Updated(cm, spec, user, codec));
            text != "" && codec.load(text) == Some(OperatorConf(spec.name, spec.replicas, user))
  {
    var conf := OperatorConf(spec.name, spec.replicas, user);
    NewDataOperatorFile(cm.data, codec.write(conf), codec.write(UserConf(spec.generated, user)), spec);
    assert RoundTrips(codec, OperatorConf(spec.name, spec.replicas, codec.load(spec.additionalConfig).value));
    DefaultsRemain(spec.name, spec.replicas, user);
    assert conf != [];
  }

  /** Stripping tells the map before the update from the one after it exactly when more than size hints changed. */
  lemma StrippingTells(cm: ConfigMap, spec: Spec, user: Ini, codec: Codec)
    requires Faithful(codec, spec.name) && codec.load(spec.additionalConfig) == Some(user)
    ensures var updated := Updated(cm, spec, user, codec);
            && Stripped(updated, codec).Some?
            && (Stripped(cm, codec).Some? ==>
                  (Stripped(cm, codec) == Stripped(updated, codec) <==> SameUpToHints(cm, updated, codec)))
  {
    var updated := Updated(cm, spec, user, codec);
    UpdatedDefaults(cm, spec, user, codec);
    if Stripped(cm, codec).Some? {
      if OperatorText(cm) != "" {
        StrippedEqual(cm, updated, codec);
      } else {
        DefaultsRemain(spec.name, spec.replicas, user);
        EmptyDefaultsDiffer(cm, updated, codec);
      }
    }
  }

  lemma DecisionTells(cm: ConfigMap, updated: ConfigMap, spec: Spec, codec: Codec)
    requires Stripped(cm, codec).Some? && Stripped(updated, codec).Some? ==>
               (Stripped(cm, codec) == Stripped(updated, codec) <==> SameUpToHints(cm, updated, codec))
    ensures match Decide(cm, updated, spec, codec)
            case Ok(r) => r.0 == updated && (!r.1 <==> SameUpToHints(cm, updated, codec))
            case Err(_) => true
  {
  }

  /**
    One update on a new builder asks for no restart exactly when the ConfigMap before and after are the same up to
    size hints.
  */
  lemma RestartIffChanged(cm: ConfigMap, spec: Spec, codec: Codec)
    requires Faithful(codec, spec.name)
    ensures match Update(cm, spec, codec)
            case Ok(r) => !r.1 <==> SameUpToHints(cm, r.0, codec)
            case Err(_) => true
  {
    var user := codec.load(spec.additionalConfig);
    if user.Some? {
      StrippingTells(cm, spec, user.value, codec);
      DecisionTells(cm, Updated(cm, spec, user.value, codec), spec, codec);
    }
  }

  lemma EmptyDefaultsDiffer(cm: ConfigMap, updated: ConfigMap, codec: Codec)
    requires Readable(codec) && OperatorText(cm) == "" && OperatorText(updated) != ""
    requires codec.load(OperatorText(updated)).Some? && WithoutHints(codec.load(OperatorText(updated)).value) != []
    ensures Stripped(cm, codec) != Stripped(updated, codec) && !SameUpToHints(cm, updated, codec)
  {
    var rest := WithoutHints(codec.load(OperatorText(updated)).value);
    assert RoundTrips(codec, rest) && codec.write(rest) != "";
    assert OperatorText(Stripped(updated, codec).value) == codec.write(rest);
    assert OperatorText(Stripped(cm, codec).value) == "";
  }

  // ---- What an update leaves in the map, and when it fails ----

  /** A file with a setting holds it; without one it is not there. */
  predicate Holds(data: map<string, string>, file: string, setting: string) {
    (file in data <==> setting != "") && (file in data ==> data[file] == setting)
  }

  lemma NewDataHolds(data: map<string, string>, operatorText: string, userText: string, spec: Spec)
    ensures var d := NewData(data, operatorText, userText, spec);
            && Holds(d, "advanced.config", spec.advancedConfig)
            && Holds(d, "rabbitmq-env.conf", spec.envConfig)
            && Holds(d, "erl_inetrc", spec.erlangInetConfig)
            && "userDefinedConfiguration.conf" in d && d["userDefinedConfiguration.conf"] == userText
            && "operatorDefaults.conf" in d && d["operatorDefaults.conf"] == operatorText
  {
    FileNamesDiffer();
  }

  lemma NewDataKeepsOthers(data: map<string, string>, operatorText: string, userText: string, spec: Spec, key: string)
    requires key !in {OPERATOR_FILE, USER_FILE, ADVANCED, ENV, INETRC}
    ensures var d := NewData(data, operatorText, userText, spec);
            (key in d <==> key in data) && (key in d ==> d[key] == data[key])
  {
  }

  /** The value of the last key of the name, if no other key after `i` has it. */
  lemma {:induction false} LastOfIs(keys: seq<Key>, i: nat)
    requires i < |keys| && forall j :: i < j < |keys| ==> keys[j].name != keys[i].name
    ensures LastOf(keys, keys[i].name) == Some(keys[i].value)
    decreases |keys|
  {
    var n := |keys| - 1;
    if i < n {
      LastOfIs(keys[..n], i);
    }
  }

  lemma NamesOfDefaultsDiffer()
    ensures SIZE_HINT != "cluster_name"
    ensures SIZE_HINT != "auth_mechanisms.1" && SIZE_HINT != "auth_mechanisms.2"
    ensures "cluster_name" != "auth_mechanisms.1" && "cluster_name" != "auth_mechanisms.2"
  {
    assert |SIZE_HINT| == 42;
    assert "cluster_name"[0] == 'c' && "auth_mechanisms.1"[0] == 'a' && "auth_mechanisms.2"[0] == 'a';
  }

  /** The operator's defaults carry the size hint for the replicas and the name of the cluster. */
  lemma DefaultsSay(name: string, replicas: Count, user: Ini)
    ensures var conf := OperatorConf(name, replicas, user);
            && Lookup(conf, "cluster_formation.target_cluster_size_hint") == Some(Itoa(replicas))
            && Lookup(conf, "cluster_name") == Some(name)
  {
    var keys := OperatorKeys(name, replicas, user);
    NamesOfDefaultsDiffer();
    assert keys[7] == Key(SIZE_HINT, Itoa(replicas)) && keys[8] == Key("cluster_name", name);
    assert |keys| > 9 ==> keys[9] == DEFAULT_AUTH[0] && keys[10] == DEFAULT_AUTH[1] && |keys| == 11;
    LastOfIs(keys, 7);
    LastOfIs(keys, 8);
    AssignSets([], keys, SIZE_HINT);
    AssignSets([], keys, "cluster_name");
  }

  /** A list of keys with the values of the user's file. */
  ghost predicate IsUserConf(conf: Ini, g: Generated, user: Ini) {
    forall name :: Lookup(conf, name) ==
      if LastOf(user, name).Some? then LastOf(user, name)
      else if LastOf(g.tlsFile, name).Some? then LastOf(g.tlsFile, name)
      else LastOf(g.keys, name)
  }

  lemma UserConfIs(g: Generated, user: Ini)
    ensures IsUserConf(UserConf(g, user), g, user)
  {
    forall name
      ensures Lookup(UserConf(g, user), name) ==
                if LastOf(user, name).Some? then LastOf(user, name)
                else if LastOf(g.tlsFile, name).Some? then LastOf(g.tlsFile, name)
                else LastOf(g.keys, name)
    {
      UserConfPrecedence(g, user, name);
    }
  }

  /**
    What a successful update leaves: each optional file holds its setting, the user's file is the text of the merged
    configuration, and the operator's file reads back with the size hint and the cluster's name.
  */
  lemma UpdateLeaves(cm: ConfigMap, spec: Spec, codec: Codec)
    requires Faithful(codec, spec.name) && Update(cm, spec, codec).Ok?
    ensures var d, user := Update(cm, spec, codec).value.0.data, codec.load(spec.additionalConfig);
            && Holds(d, "advanced.config", spec.advancedConfig)
            && Holds(d, "rabbitmq-env.conf", spec.envConfig)
            && Holds(d, "erl_inetrc", spec.erlangInetConfig)
            && "userDefinedConfiguration.conf" in d && "operatorDefaults.conf" in d && user.Some?
            && (exists conf ::
                  d["userDefinedConfiguration.conf"] == codec.write(conf) &&
                  IsUserConf(conf, spec.generated, user.value))
            && var defaults := codec.load(d["operatorDefaults.conf"]);
               && defaults.Some?
               && Lookup(defaults.value, "cluster_formation.target_cluster_size_hint") == Some(Itoa(spec.replicas))
               && Lookup(defaults.value, "cluster_name") == Some(spec.name)
  {
    var user := codec.load(spec.additionalConfig).value;
    var operatorText := codec.write(OperatorConf(spec.name, spec.replicas, user));
    var userText := codec.write(UserConf(spec.generated, user));
    NewDataHolds(cm.data, operatorText, userText, spec);
    UserConfIs(spec.generated, user);
    UpdatedDefaults(cm, spec, user, codec);
    DefaultsSay(spec.name, spec.replicas, user);
  }

  /** It takes the map over for the cluster and touches nothing else. */
  lemma UpdateKeepsOthers(cm: ConfigMap, spec: Spec, codec: Codec, key: string)
    requires Update(cm, spec, codec).Ok?
    requires key !in {OPERATOR_FILE, USER_FILE, ADVANCED, ENV, INETRC}
    ensures var updated := Update(cm, spec, codec).value.0;
            && updated.owner == Some(spec.name) && updated.meta == cm.meta
            && (key in updated.data <==> key in cm.data) && (key in cm.data ==> updated.data[key] == cm.data[key])
  {
    var user := codec.load(spec.additionalConfig).value;
    NewDataKeepsOthers(cm.data, codec.write(OperatorConf(spec.name, spec.replicas, user)),
                       codec.write(UserConf(spec.generated, user)), spec, key);
  }

  /** `strings.Contains` */
  ghost predicate Contains(s: string, part: string) {
    exists i :: 0 <= i <= |s| && part <= s[i..]
  }

  lemma StartsWith(s: string, i: nat)
    requires i <= |s|
    ensures "$(" <= s[i..] <==> i + 1 < |s| && s[i] == '$' && s[i + 1] == '('
    ensures "`" <= s[i..] <==> i < |s| && s[i] == '`'
  {
  }

  lemma HasSubstitutionIff(s: string)
    ensures HasSubstitution(s) <==> Contains(s, "$(") || Contains(s, "`")
  {
    if HasSubstitution(s) {
      var i :| 0 <= i < |s| && (s[i] == '`' || (s[i] == '$' && i + 1 < |s| && s[i + 1] == '('));
      StartsWith(s, i);
      assert "$(" <= s[i..] || "`" <= s[i..];
    }
    if Contains(s, "$(") {
      var i :| 0 <= i <= |s| && "$(" <= s[i..];
      StartsWith(s, i);
      assert s[i] == '$';
    }
    if Contains(s, "`") {
      var i :| 0 <= i <= |s| && "`" <= s[i..];
      StartsWith(s, i);
      assert s[i] == '`';
    }
  }

  /** The first thing that is wrong decides the error. */
  lemma UpdateFailsIff(cm: ConfigMap, spec: Spec, codec: Codec)
    requires Faithful(codec, spec.name)
    ensures var badConfig := codec.load(spec.additionalConfig).None?;
            var badEnv := Contains(spec.envConfig, "$(") || Contains(spec.envConfig, "`");
            var taken := cm.owner.Some? && cm.owner.value != spec.name;
            var unreadable := "operatorDefaults.conf" in cm.data && cm.data["operatorDefaults.conf"] != "" &&
                              codec.load(cm.data["operatorDefaults.conf"]).None?;
            match Update(cm, spec, codec)
            case Ok(_) => !badConfig && !badEnv && !taken && !unreadable
            case Err(InvalidAdditionalConfig) => badConfig
            case Err(InvalidEnvConfig) => !badConfig && badEnv
            case Err(OwnedByAnother) => !badConfig && !badEnv && taken
            case Err(UnreadableDefaults) => !badConfig && !badEnv && !taken && unreadable
  {
    var user := codec.load(spec.additionalConfig);
    HasSubstitutionIff(spec.envConfig);
    if user.Some? {
      StrippingTells(cm, spec, user.value, codec);
    }
  }

  // ---- Changing only the number of replicas ----

  /** Equal, or the same size hint with another value. */
  predicate Near(k: Key, l: Key) {
    k == l || (k.name == l.name && HasPrefix(k.name, SIZE_HINT))
  }

  /** Two lists of keys that differ at most in the values of size hints. */
  predicate HintsApart(a: seq<Key>, b: seq<Key>) {
    |a| == |b| && forall i :: 0 <= i < |a| ==> Near(a[i], b[i])
  }

  lemma HintsApartCons(k: Key, l: Key, a: seq<Key>, b: seq<Key>)
    requires Near(k, l) && HintsApart(a, b)
    ensures HintsApart([k] + a, [l] + b)
  {
  }

  lemma {:induction false} NewKeyHintsApart(a: Ini, b: Ini, k: Key, l: Key)
    requires HintsApart(a, b) && Near(k, l)
    ensures HintsApart(NewKey(a, k), NewKey(b, l))
    decreases |a|
  {
    if a == [] {
      HintsApartCons(k, l, [], []);
    } else {
      assert Near(a[0], b[0]);
      if a[0].name == k.name {
        HintsApartCons(k, l, a[1..], b[1..]);
      } else {
        NewKeyHintsApart(a[1..], b[1..], k, l);
        HintsApartCons(a[0], b[0], NewKey(a[1..], k), NewKey(b[1..], l));
      }
    }
  }

  lemma {:induction false} AssignHintsApart(a: Ini, b: Ini, ks: seq<Key>, ls: seq<Key>)
    requires HintsApart(a, b) && HintsApart(ks, ls)
    ensures HintsApart(Assign(a, ks), Assign(b, ls))
    decreases |ks|
  {
    if ks != [] {
      var n := |ks| - 1;
      AssignHintsApart(a, b, ks[..n], ls[..n]);
      assert Near(ks[n], ls[n]);
      NewKeyHintsApart(Assign(a, ks[..n]), Assign(b, ls[..n]), ks[n], ls[n]);
    }
  }

  lemma {:induction false} HintsApartAgree(a: Ini, b: Ini)
    requires HintsApart(a, b)
    ensures WithoutHints(a) == WithoutHints(b)
    decreases |a|
  {
    if a != [] {
      assert Near(a[0], b[0]);
      HintsApartAgree(a[1..], b[1..]);
    }
  }

  lemma ReplicasOnlyMoveTheHint(name: string, m: Count, n: Count, user: Ini)
    ensures WithoutHints(OperatorConf(name, m, user)) == WithoutHints(OperatorConf(name, n, user))
  {
    var ks, ls := OperatorKeys(name, m, user), OperatorKeys(name, n, user);
    assert forall i :: 0 <= i < |ks| && i != 7 ==> ks[i] == ls[i];
    assert ks[7] == Key(SIZE_HINT, Itoa(m)) && ls[7] == Key(SIZE_HINT, Itoa(n));
    AssignHintsApart([], [], ks, ls);
    HintsApartAgree(OperatorConf(name, m, user), OperatorConf(name, n, user));
  }

  /** Updating data a second time, with another text for the defaults, changes only the defaults. */
  lemma SecondUpdateOnlyDefaults(once: map<string, string>, twice: map<string, string>, data: map<string, string>,
                                 text: string, text': string, userText: string, spec: Spec, spec': Spec)
    requires spec' == spec.(replicas := spec'.replicas)
    requires once == NewData(data, text, userText, spec) && twice == NewData(once, text', userText, spec')
    ensures twice - {OPERATOR_FILE} == once - {OPERATOR_FILE}
  {
  }

  lemma SecondUpdateSame(cm: ConfigMap, spec: Spec, n: Count, user: Ini, codec: Codec)
    requires Faithful(codec, spec.name) && codec.load(spec.additionalConfig) == Some(user)
    ensures var updated := Updated(cm, spec, user, codec);
            SameUpToHints(updated, Updated(updated, spec.(replicas := n), user, codec), codec)
  {
    var spec' := spec.(replicas := n);
    var once := Updated(cm, spec, user, codec);
    var twice := Updated(once, spec', user, codec);
    UpdatedDefaults(cm, spec, user, codec);
    UpdatedDefaults(once, spec', user, codec);
    ReplicasOnlyMoveTheHint(spec.name, spec.replicas, n, user);
    SecondUpdateOnlyDefaults(once.data, twice.data, cm.data,
                             codec.write(OperatorConf(spec.name, spec.replicas, user)),
                             codec.write(OperatorConf(spec.name, n, user)),
                             codec.write(UserConf(spec.generated, user)), spec, spec');
  }

  /** The update succeeded and asks for no restart. */
  predicate NoRestart(r: Result<(ConfigMap, bool), Error>) {
    r.Ok? && !r.value.1
  }

  lemma SameMeansNoRestart(cm: ConfigMap, updated: ConfigMap, spec: Spec, codec: Codec)
    requires Stripped(cm, codec).Some? && Stripped(cm, codec) == Stripped(updated, codec)
    requires !HasSubstitution(spec.envConfig) && cm.owner == Some(spec.name)
    ensures NoRestart(Decide(cm, updated, spec, codec))
  {
  }

  lemma AgainNeverRestarts(cm: ConfigMap, spec: Spec, n: Count, user: Ini, codec: Codec)
    requires Faithful(codec, spec.name) && codec.load(spec.additionalConfig) == Some(user)
    requires !HasSubstitution(spec.envConfig)
    ensures NoRestart(Update(Updated(cm, spec, user, codec), spec.(replicas := n), codec))
  {
    var updated := Updated(cm, spec, user, codec);
    SecondUpdateSame(cm, spec, n, user, codec);
    StrippingTells(cm, spec, user, codec);
    StrippingTells(updated, spec.(replicas := n), user, codec);
    SameMeansNoRestart(updated, Updated(updated, spec.(replicas := n), user, codec), spec.(replicas := n), codec);
  }

  /** For a map produced by an update, changing only the number of replicas, or nothing, asks for no restart. */
  lemma ReplicasNeverRestart(cm: ConfigMap, spec: Spec, n: Count, codec: Codec)
    requires Faithful(codec, spec.name)
    ensures match Update(cm, spec, codec)
            case Ok(r) => NoRestart(Update(r.0, spec.(replicas := n), codec))
            case Err(_) => true
  {
    var user := codec.load(spec.additionalConfig);
    if user.Some? && !HasSubstitution(spec.envConfig) {
      AgainNeverRestarts(cm, spec, n, user.value, codec);
    }
  }

  // ---- One builder, several attempts ----

  /** The builder's flag after attempts with these results: it is never set again once an attempt has cleared it. */
  predicate FlagAfter(results: seq<Result<(ConfigMap, bool), Error>>) {
    forall i :: 0 <= i < |results| ==> !NoRestart(results[i])
  }

  /** The results of updating each of the maps read. */
  function Attempts(copies: seq<ConfigMap>, spec: Spec, codec: Codec): (rs: seq<Result<(ConfigMap, bool), Error>>)
    ensures |rs| == |copies| && forall i :: 0 <= i < |copies| ==> rs[i] == Update(copies[i], spec, codec)
  {
    seq(|copies|, i requires 0 <= i < |copies| => Update(copies[i], spec, codec))
  }

  /** The map needs nothing but another size hint. */
  ghost predicate UpToDate(cm: ConfigMap, result: Result<(ConfigMap, bool), Error>, codec: Codec) {
    result.Ok? && SameUpToHints(cm, result.value.0, codec)
  }

  lemma ClearedIffUpToDate(cm: ConfigMap, spec: Spec, codec: Codec)
    requires Faithful(codec, spec.name)
    ensures NoRestart(Update(cm, spec, codec)) <==> UpToDate(cm, Update(cm, spec, codec), codec)
  {
    RestartIffChanged(cm, spec, codec);
  }

  /** The last of several attempts asks for a restart, but the flag does not, exactly when an earlier one cleared it. */
  lemma FlagLosesIff(results: seq<Result<(ConfigMap, bool), Error>>)
    requires results != []
    ensures var n := |results| - 1;
            results[n].Ok? && results[n].value.1 && !FlagAfter(results) <==>
              results[n].Ok? && !NoRestart(results[n]) && exists i :: 0 <= i < n && NoRestart(results[i])
  {
  }

  /**
    When the update is tried again after a conflict, it fails to ask for a restart that the last attempt needs exactly
    when an earlier attempt had read a map that was up to date.
  */
  lemma RetryLosesRestartIff(copies: seq<ConfigMap>, spec: Spec, codec: Codec)
    requires Faithful(codec, spec.name) && copies != []
    ensures var rs, n := Attempts(copies, spec, codec), |copies| - 1;
            rs[n].Ok? && rs[n].value.1 && !FlagAfter(rs) <==>
              && rs[n].Ok? && !UpToDate(copies[n], rs[n], codec)
              && exists i :: 0 <= i < n && UpToDate(copies[i], rs[i], codec)
  {
    var rs := Attempts(copies, spec, codec);
    FlagLosesIff(rs);
    forall i | 0 <= i < |copies|
      ensures NoRestart(rs[i]) <==> UpToDate(copies[i], rs[i], codec)
    {
      ClearedIffUpToDate(copies[i], spec, codec);
    }
    SameWitnesses(copies, rs, codec);
  }

  lemma SameWitnesses(copies: seq<ConfigMap>, results: seq<Result<(ConfigMap, bool), Error>>, codec: Codec)
    requires 0 < |copies| == |results|
    requires forall i :: 0 <= i < |copies| ==> (NoRestart(results[i]) <==> UpToDate(copies[i], results[i], codec))
    ensures var n := |copies| - 1;
            (exists i :: 0 <= i < n && NoRestart(results[i])) <==>
            (exists i :: 0 <= i < n && UpToDate(copies[i], results[i], codec))
  {
  }

  /** A first attempt that would only change the size hint hides that somebody removed the user's file meanwhile. */
  lemma RetryLosesRestartIsReal(cm: ConfigMap, spec: Spec, n: Count, user: Ini, codec: Codec)
    requires Faithful(codec, spec.name) && codec.load(spec.additionalConfig) == Some(user)
    requires !HasSubstitution(spec.envConfig)
    ensures var first := Updated(cm, spec.(replicas := n), user, codec);
            var second := first.(data := first.data - {USER_FILE});
            && Update(second, spec, codec).Ok? && Update(second, spec, codec).value.1
            && !FlagAfter(Attempts([first, second], spec, codec))
  {
    var spec' := spec.(replicas := n);
    var first := Updated(cm, spec', user, codec);
    var second := first.(data := first.data - {USER_FILE});
    assert spec'.(replicas := spec.replicas) == spec;
    AgainNeverRestarts(cm, spec', spec.replicas, user, codec);
    assert NoRestart(Attempts([first, second], spec, codec)[0]);
    UpdatedDefaults(cm, spec', user, codec);
    assert OperatorText(second) == OperatorText(first);
    UserFileMissing(second, spec, user, codec);
  }

  lemma UserFileMissing(cm: ConfigMap, spec: Spec, user: Ini, codec: Codec)
    requires Faithful(codec, spec.name) && codec.load(spec.additionalConfig) == Some(user)
    requires !HasSubstitution(spec.envConfig)
    requires cm.owner == Some(spec.name) && codec.load(OperatorText(cm)).Some? && USER_FILE !in cm.data
    ensures Update(cm, spec, codec).Ok? && Update(cm, spec, codec).value.1
  {
    var updated := Updated(cm, spec, user, codec);
    FileNamesDiffer();
    assert USER_FILE in updated.data - {OPERATOR_FILE} && USER_FILE !in cm.data - {OPERATOR_FILE};
    StrippingTells(cm, spec, user, codec);
    DecisionTells(cm, updated, spec, codec);
  }

  // ---- The builder as the code runs it ----

  function Delete(ini: Ini, name: string): Ini {
    if ini == [] then [] else if ini[0].name == name then ini[1..] else [ini[0]] + Delete(ini[1..], name)
  }

  lemma {:induction false} DeleteAt(a: Ini, k: Key, b: Ini)
    requires forall i :: 0 <= i < |a| ==> a[i].name != k.name
    ensures Delete(a + [k] + b, k.name) == a + b
    decreases |a|
  {
    var ini := a + [k] + b;
    if a == [] {
      assert ini[1..] == b;
    } else {
      assert ini[1..] == a[1..] + [k] + b;
      DeleteAt(a[1..], k, b);
    }
  }

  lemma {:induction false} WithoutHintsSnoc(ini: Ini, k: Key)
    ensures WithoutHints(ini + [k]) == WithoutHints(ini) + if HasPrefix(k.name, SIZE_HINT) then [] else [k]
    decreases |ini|
  {
    if ini == [] {
      assert ([k])[1..] == [];
    } else {
      assert (ini + [k])[1..] == ini[1..] + [k];
      WithoutHintsSnoc(ini[1..], k);
    }
  }

  /** One key of the snapshot: a size hint is deleted from the section, any other key stays. */
  lemma HintStep(ini: Ini, i: nat, section: Ini)
    requires Distinct(ini) && i < |ini| && section == WithoutHints(ini[..i]) + ini[i..]
    ensures (if HasPrefix(ini[i].name, SIZE_HINT) then Delete(section, ini[i].name) else section) ==
            WithoutHints(ini[..i + 1]) + ini[i + 1..]
  {
    var done, k, rest := WithoutHints(ini[..i]), ini[i], ini[i + 1..];
    assert ini[..i + 1] == ini[..i] + [k];
    WithoutHintsSnoc(ini[..i], k);
    assert section == done + [k] + rest;
    forall j | 0 <= j < |done|
      ensures done[j].name != k.name
    {
      WithoutHintsKeys(ini[..i], done[j]);
    }
    DeleteAt(done, k, rest);
  }

  /** The loop over a snapshot of the keys that deletes size hints from the section. */
  method RemoveSizeHints(ini: Ini) returns (section: Ini)
    requires Distinct(ini)
    ensures section == WithoutHints(ini)
  {
    section := ini;
    for i := 0 to |ini|
      invariant section == WithoutHints(ini[..i]) + ini[i..]
    {
      HintStep(ini, i, section);
      if HasPrefix(ini[i].name, SIZE_HINT) {
        section := Delete(section, ini[i].name);
      }
    }
    assert ini[..|ini|] == ini;
  }

  class ServerConfigMap {
    var data: map<string, string>
    var owner: Option<string>
    const meta: string

    constructor (cm: ConfigMap)
      ensures View() == cm
    {
      data, owner, meta := cm.data, cm.owner, cm.meta;
    }

    function View(): ConfigMap
      reads this
    {
      ConfigMap(data, owner, meta)
    }
  }

  class ServerConfigMapBuilder {
    var updateRequiresStsRestart: bool

    constructor ()
      ensures updateRequiresStsRestart
    {
      updateRequiresStsRestart := true;
    }

    static method Strip(cm: ConfigMap, codec: Codec) returns (r: Option<ConfigMap>)
      requires Readable(codec)
      ensures r == Stripped(cm, codec)
    {
      var text := if OPERATOR_FILE in cm.data then cm.data[OPERATOR_FILE] else "";
      if text == "" {
        return Some(cm);
      }
      var conf := codec.load(text);
      if conf.None? {
        return None;
      }
      var section := RemoveSizeHints(conf.value);
      return Some(cm.(data := cm.data[OPERATOR_FILE := codec.write(section)]));
    }

    /** An error leaves the builder's flag as it was; what it leaves in the object is never written to the server. */
    method UpdateConfigMap(cm: ServerConfigMap, spec: Spec, codec: Codec) returns (err: Option<Error>)
      requires Readable(codec)
      modifies this, cm
      ensures err == match Update(old(cm.View()), spec, codec) case Ok(_) => None case Err(e) => Some(e)
      ensures err.None? ==> cm.View() == Update(old(cm.View()), spec, codec).value.0
      ensures updateRequiresStsRestart ==
              (old(updateRequiresStsRestart) && (err.None? ==> Update(old(cm.View()), spec, codec).value.1))
    {
      var previous := cm.View();
      var user := codec.load(spec.additionalConfig);
      if user.None? {
        return Some(InvalidAdditionalConfig);
      }
      cm.data := cm.data[OPERATOR_FILE := codec.write(OperatorConf(spec.name, spec.replicas, user.value))];
      cm.data := cm.data[USER_FILE := codec.write(UserConf(spec.generated, user.value))];
      if HasSubstitution(spec.envConfig) {
        return Some(InvalidEnvConfig);
      }
      cm.data := UpdateProperty(cm.data, ADVANCED, spec.advancedConfig);
      cm.data := UpdateProperty(cm.data, ENV, spec.envConfig);
      cm.data := UpdateProperty(cm.data, INETRC, spec.erlangInetConfig);
      if cm.owner.Some? && cm.owner.value != spec.name {
        return Some(OwnedByAnother);
      }
      cm.owner := Some(spec.name);
      var before := Strip(previous, codec);
      if before.None? {
        return Some(UnreadableDefaults);
      }
      var after := Strip(cm.View(), codec);
      if after.None? {
        return Some(UnreadableDefaults);
      }
      if before == after {
        updateRequiresStsRestart := false;
      }
      return None;
    }

    /** One attempt on a copy that was read anew: it can clear the flag but never sets it. */
    method Attempt(copy: ConfigMap, spec: Spec, codec: Codec) returns (err: Option<Error>)
      requires Readable(codec)
      modifies this
      ensures err.None? ==>
                updateRequiresStsRestart == (old(updateRequiresStsRestart) && !NoRestart(Update(copy, spec, codec)))
    {
      var cm := new ServerConfigMap(copy);
      err := UpdateConfigMap(cm, spec, codec);
    }
  }
}
