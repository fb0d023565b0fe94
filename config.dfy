/**
 * The proxy's configuration: its defaults, and the rewrite applied to the
 * parsed configuration file before validation, where each top-level string
 * of a connection's settings that reads `env:NAME` is replaced by the
 * environment variable `NAME`.
 */
module ProxyConfig {
  import opened Wrappers
  import opened PyStr
  import opened Values
  import opened Utils

  /** The validated configuration. */
  datatype Config = Config(
    host: string,
    port: int,
    connections: map<string, map<string, Value>>,
    routing: map<string, string>)

  /** A configuration that sets only the connections (the one required
    * field) and leaves the rest at their defaults. */
  function DefaultConfig(connections: map<string, map<string, Value>>): (c: Config)
    ensures c.host == "0.0.0.0" && c.port == 8000 && c.routing == map[]
    ensures c.connections == connections
  {
    Config("0.0.0.0", 8000, connections, map[])
  }

  const ConnectionsKey := "connections"

  /** The value a connection setting takes: a string starting with `env:`
    * becomes the variable named by the text after the first colon, or the
    * empty string when it is unset; any other value is kept. */
  function Substituted(v: Value, env: map<string, string>): (r: Value)
    ensures IsEnvRef(v) ==> r == Str(EnvLookup(env, v.s[4..]))
    ensures !IsEnvRef(v) ==> r == v
  {
    if v.Str? && StartsWith(v.s, "env:") then
      EnvNameAfterPrefix(v.s);
      Str(EnvLookup(env, SplitOnce(v.s, ":")[1]))
    else v
  }

  /** One connection's settings after the rewrite. */
  function SubstitutedConnection(conn: map<string, Value>, env: map<string, string>): (r: map<string, Value>)
    ensures r.Keys == conn.Keys
    ensures forall k :: k in r ==> r[k] == Substituted(conn[k], env)
  {
    map k | k in conn :: Substituted(conn[k], env)
  }

  /** Every connection is a table (otherwise the loop cannot iterate it). */
  predicate ConnectionsAreTables(conns: map<string, Value>) {
    forall name :: name in conns ==> conns[name].Dict?
  }

  /** The parsed file after the rewrite; `None` when `connections` is there
    * but is not a table of tables, where the loop raises. */
  function SubstituteConnectionEnv(data: map<string, Value>, env: map<string, string>): (r: Option<map<string, Value>>)
    ensures r.None? <==> ConnectionsKey in data && !(data[ConnectionsKey].Dict? && ConnectionsAreTables(data[ConnectionsKey].entries))
    ensures r.Some? ==> r.value.Keys == data.Keys
    ensures r.Some? ==> forall k :: k in data && k != ConnectionsKey ==> r.value[k] == data[k]
    ensures r.Some? && ConnectionsKey in data ==>
      var conns := data[ConnectionsKey].entries;
      r.value[ConnectionsKey] == Dict(map name | name in conns :: Dict(SubstitutedConnection(conns[name].entries, env)))
  {
    if ConnectionsKey !in data then Some(data)
    else
      var cs := data[ConnectionsKey];
      if cs.Dict? && ConnectionsAreTables(cs.entries) then
        Some(data[ConnectionsKey := Dict(map name | name in cs.entries :: Dict(SubstitutedConnection(cs.entries[name].entries, env)))])
      else None
  }

  /** The inner loop of `Config.load`: assign each setting of one
    * connection its substituted value, in place. */
  method SubstituteSettings(settings: map<string, Value>, env: map<string, string>)
    returns (conn: map<string, Value>)
    ensures conn == SubstitutedConnection(settings, env)
  {
    ghost var target := SubstitutedConnection(settings, env);
    conn := settings;
    var keys := conn.Keys;
    while keys != {}
      invariant keys <= conn.Keys
      invariant conn.Keys == settings.Keys
      invariant forall j :: j in conn ==> conn[j] == (if j in keys then settings[j] else target[j])
      decreases |keys|
    {
      var k :| k in keys;
      ghost var before := conn;
      var value := conn[k];
      if value.Str? && StartsWith(value.s, "env:") {
        EnvNameAfterPrefix(value.s);
        var envVar := SplitOnce(value.s, ":")[1];
        conn := conn[k := Str(EnvLookup(env, envVar))];
      }
      assert conn == before[k := target[k]] by {
        assert value == settings[k] && target[k] == Substituted(settings[k], env);
        if !(value.Str? && StartsWith(value.s, "env:")) {
          assert before[k := value] == before;
        }
      }
      SettingStep(settings, target, before, keys, k);
      keys := keys - {k};
    }
    SameMaps(conn, target);
  }

  /** Rewriting one more setting keeps the inner loop's invariant. */
  lemma SettingStep(settings: map<string, Value>, target: map<string, Value>, conn: map<string, Value>,
                    keys: set<string>, k: string)
    requires k in keys && keys <= conn.Keys && conn.Keys == settings.Keys && target.Keys == settings.Keys
    requires forall j :: j in conn ==> conn[j] == (if j in keys then settings[j] else target[j])
    ensures var next := conn[k := target[k]];
      keys - {k} <= next.Keys && next.Keys == settings.Keys
      && forall j :: j in next ==> next[j] == (if j in keys - {k} then settings[j] else target[j])
  { }

  /** The loop of `Config.load`: for each connection, rewrite its settings;
    * a connection that is not a table makes the loop raise. */
  method SubstituteInPlace(data: map<string, Value>, env: map<string, string>)
    returns (r: Option<map<string, Value>>)
    ensures r == SubstituteConnectionEnv(data, env)
  {
    if ConnectionsKey !in data {
      return Some(data);
    }
    if !data[ConnectionsKey].Dict? {
      return None;
    }
    var conns := data[ConnectionsKey].entries;
    var done: map<string, Value> := map[];
    var todo := conns.Keys;
    while todo != {}
      invariant todo <= conns.Keys
      invariant done.Keys == conns.Keys - todo
      invariant forall name :: name in done ==>
        conns[name].Dict? && done[name] == Dict(SubstitutedConnection(conns[name].entries, env))
      decreases |todo|
    {
      var name :| name in todo;
      if !conns[name].Dict? {
        return None;
      }
      var conn := SubstituteSettings(conns[name].entries, env);
      done := done[name := Dict(conn)];
      todo := todo - {name};
    }
    assert ConnectionsAreTables(conns);
    SameMaps(done, map name | name in conns :: Dict(SubstitutedConnection(conns[name].entries, env)));
    return Some(data[ConnectionsKey := Dict(done)]);
  }

  // -------------------------------------------------------------- properties

  /** The variable's name is the text after `env:`. */
  lemma EnvNameAfterPrefix(s: string)
    requires StartsWith(s, "env:")
    ensures Contains(s, ":")
    ensures SplitOnce(s, ":")[1] == s[4..]
  {
    assert OccursAt(s, ":", 3);
    assert s == "env" + ":" + s[4..];
    NoCharNoOccurrence("env", ':');
    assert "env" + ":"[..0] == "env";
    SplitOnceHead("env", ":", s[4..]);
  }

  /** A colon in the variable's name is kept: only the first colon splits. */
  lemma ColonInName(name: string, env: map<string, string>)
    ensures Substituted(Str("env:" + name), env) == Str(EnvLookup(env, name))
  {
    var s := "env:" + name;
    assert s[..4] == "env:";
    assert s[4..] == name;
  }

  /** Only one level is rewritten: a nested table is kept as it is, even when
    * it holds `env:` strings. */
  lemma NestedValuesKept(m: map<string, Value>, items: seq<Value>, env: map<string, string>)
    ensures Substituted(Dict(m), env) == Dict(m)
    ensures Substituted(List(items), env) == List(items)
  { }

  /** On a connection whose settings are all scalars the rewrite agrees with
    * the recursive one; the two differ only below the top level. */
  lemma AgreesWithRecursiveOnFlat(conn: map<string, Value>, env: map<string, string>)
    requires forall k :: k in conn ==> IsScalar(conn[k])
    ensures Dict(SubstitutedConnection(conn, env)) == ReplaceEnvStringsRecursive(Dict(conn), env)
  {
    var flat := SubstitutedConnection(conn, env);
    var deep := ReplaceEnvStringsRecursive(Dict(conn), env);
    forall k | k in conn
      ensures flat[k] == deep.entries[k]
    {
      DeepEntry(conn, env, k);
      ScalarAgrees(conn[k], env);
    }
    SameMaps(flat, deep.entries);
  }

  lemma DeepEntry(conn: map<string, Value>, env: map<string, string>, k: string)
    requires k in conn
    ensures ReplaceEnvStringsRecursive(Dict(conn), env).entries[k] == ReplaceEnvStringsRecursive(conn[k], env)
  { }

  lemma SameMaps(a: map<string, Value>, b: map<string, Value>)
    requires a.Keys == b.Keys
    requires forall k :: k in a ==> a[k] == b[k]
    ensures a == b
  { }

  lemma ScalarAgrees(v: Value, env: map<string, string>)
    requires IsScalar(v)
    ensures Substituted(v, env) == ReplaceEnvStringsRecursive(v, env)
  { }

  /** A file with no `connections` table is left as it is. */
  lemma NoConnectionsUntouched(data: map<string, Value>, env: map<string, string>)
    requires ConnectionsKey !in data
    ensures SubstituteConnectionEnv(data, env) == Some(data)
  { }
}
