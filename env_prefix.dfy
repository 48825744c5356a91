/**
 * `EnvMap(prefix)` (main.go:17-29): the process environment, a sequence of
 * `KEY=VALUE` entries, turned into a map from the keys that start with
 * `prefix`, with the prefix removed, to their values. An entry without `=`
 * is fatal. The environment is a parameter here instead of `os.Environ()`.
 */
module EnvPrefix {
  import opened Wrappers
  import opened Fatal

  /**
   * `strings.SplitN(item, "=", 2)` with its length test folded in: `None`
   * when the entry holds no `=` (SplitN then yields one piece), otherwise
   * the text before the first `=` and everything after it.
   */
  function SplitAtFirst(s: string): (r: Option<(string, string)>)
    ensures r.None? <==> '=' !in s
    ensures r.Some? ==> '=' !in r.value.0 && s == r.value.0 + "=" + r.value.1
  {
    if |s| == 0 then None
    else if s[0] == '=' then Some(([], s[1..]))
    else
      assert s == [s[0]] + s[1..];
      match SplitAtFirst(s[1..])
      case None => None
      case Some(kv) => Some(([s[0]] + kv.0, kv.1))
  }

  /** Splitting undoes joining: the first `=` of `key=value` is the one after `key`. */
  lemma {:induction false} SplitJoin(key: string, value: string)
    requires '=' !in key
    ensures SplitAtFirst(key + "=" + value) == Some((key, value))
  {
    var s := key + "=" + value;
    if key != [] {
      assert s[0] == key[0] && s[1..] == key[1..] + "=" + value;
      SplitJoin(key[1..], value);
      assert [key[0]] + key[1..] == key;
    } else {
      assert s[1..] == value;
    }
  }

  /** The entry's name (its text before the first `=`) is `prefix + key`. */
  predicate Names(item: string, prefix: string, key: string)
  {
    SplitAtFirst(item).Some? && SplitAtFirst(item).value.0 == prefix + key
  }

  /** One iteration of EnvMap's loop (main.go:20-26) on the map built so far. */
  function Step(env: map<string, string>, item: string, prefix: string): Result<map<string, string>, Error>
  {
    match SplitAtFirst(item)
    case None => Err(BadEnvironmentVariable(item))
    case Some(kv) => if prefix <= kv.0 then Ok(env[kv.0[|prefix|..] := kv.1]) else Ok(env)
  }

  /** What EnvMap returns for the entries `environ`, taken in order. */
  function PrefixedEnv(environ: seq<string>, prefix: string): Result<map<string, string>, Error>
  {
    if |environ| == 0 then Ok(map[])
    else match PrefixedEnv(environ[..|environ| - 1], prefix)
      case Err(e) => Err(e)
      case Ok(env) => Step(env, environ[|environ| - 1], prefix)
  }

  /** Once an entry has been fatal, the later entries do not matter. */
  lemma {:induction false} ErrorIsFinal(environ: seq<string>, prefix: string, j: nat)
    requires j <= |environ| && PrefixedEnv(environ[..j], prefix).Err?
    ensures PrefixedEnv(environ, prefix) == PrefixedEnv(environ[..j], prefix)
  {
    if j == |environ| {
      assert environ[..j] == environ;
    } else {
      var init := environ[..|environ| - 1];
      assert init[..j] == environ[..j];
      ErrorIsFinal(init, prefix, j);
    }
  }

  /**
   * EnvMap fails exactly when some entry has no `=`, whether or not that
   * entry carries the prefix, and it names the first such entry.
   */
  lemma {:induction false} PrefixedEnvFails(environ: seq<string>, prefix: string)
    ensures PrefixedEnv(environ, prefix).Err? <==> exists i :: 0 <= i < |environ| && '=' !in environ[i]
    ensures PrefixedEnv(environ, prefix).Err? ==>
      exists i :: 0 <= i < |environ| && '=' !in environ[i] && (forall j :: 0 <= j < i ==> '=' in environ[j]) &&
        PrefixedEnv(environ, prefix).error == BadEnvironmentVariable(environ[i])
  {
    if |environ| > 0 {
      var n := |environ| - 1;
      var init := environ[..n];
      PrefixedEnvFails(init, prefix);
      assert forall i :: 0 <= i < n ==> init[i] == environ[i];
      match PrefixedEnv(init, prefix)
      case Err(e) =>
        var i :| 0 <= i < n && '=' !in init[i] && (forall j :: 0 <= j < i ==> '=' in init[j]) && e == BadEnvironmentVariable(init[i]);
        assert '=' !in environ[i];
      case Ok(env) =>
        if '=' !in environ[n] {
          assert forall j :: 0 <= j < n ==> '=' in environ[j];
        }
    }
  }

  /** One entry with an `=` adds or replaces at most the key its name gives after the prefix. */
  lemma StepEntry(env: map<string, string>, item: string, prefix: string, key: string)
    requires '=' in item
    ensures Step(env, item, prefix).Ok?
    ensures key in Step(env, item, prefix).value <==> key in env || Names(item, prefix, key)
    ensures key in Step(env, item, prefix).value ==>
      Step(env, item, prefix).value[key] == if Names(item, prefix, key) then SplitAtFirst(item).value.1 else env[key]
  {
    var kv := SplitAtFirst(item).value;
    if Names(item, prefix, key) {
      assert prefix <= kv.0 && kv.0[|prefix|..] == key;
    } else if prefix <= kv.0 {
      assert kv.0 == prefix + kv.0[|prefix|..];
    }
  }

  /** A successful EnvMap is a successful EnvMap of all but the last entry, then that entry's step. */
  lemma OkUnfold(environ: seq<string>, prefix: string)
    requires |environ| > 0 && PrefixedEnv(environ, prefix).Ok?
    ensures PrefixedEnv(environ[..|environ| - 1], prefix).Ok?
    ensures '=' in environ[|environ| - 1]
    ensures PrefixedEnv(environ, prefix) ==
      Step(PrefixedEnv(environ[..|environ| - 1], prefix).value, environ[|environ| - 1], prefix)
  {
  }

  /** Some entry of `environ` has the name `prefix + key`. */
  ghost predicate Named(environ: seq<string>, prefix: string, key: string)
  {
    exists i :: 0 <= i < |environ| && Names(environ[i], prefix, key)
  }

  /** An entry among all of them names `key` when one among the earlier ones does, or the last one does. */
  lemma NamedSnoc(environ: seq<string>, prefix: string, key: string)
    requires |environ| > 0
    ensures Named(environ, prefix, key) <==>
      Named(environ[..|environ| - 1], prefix, key) || Names(environ[|environ| - 1], prefix, key)
  {
    var init := environ[..|environ| - 1];
    if Named(environ, prefix, key) {
      var i :| 0 <= i < |environ| && Names(environ[i], prefix, key);
      if i < |init| {
        assert init[i] == environ[i];
      }
    }
    if Named(init, prefix, key) {
      var i :| 0 <= i < |init| && Names(init[i], prefix, key);
      assert environ[i] == init[i];
    }
  }

  /** When EnvMap succeeds, a key is present exactly when some entry's name is `prefix + key`. */
  lemma {:induction false} PrefixedEnvKeys(environ: seq<string>, prefix: string)
    requires PrefixedEnv(environ, prefix).Ok?
    ensures forall key :: key in PrefixedEnv(environ, prefix).value <==> Named(environ, prefix, key)
  {
    if |environ| > 0 {
      var init := environ[..|environ| - 1];
      var last := environ[|environ| - 1];
      OkUnfold(environ, prefix);
      PrefixedEnvKeys(init, prefix);
      var env := PrefixedEnv(init, prefix).value;
      forall key
        ensures key in PrefixedEnv(environ, prefix).value <==> Named(environ, prefix, key)
      {
        StepEntry(env, last, prefix, key);
        NamedSnoc(environ, prefix, key);
      }
    }
  }

  /**
   * When EnvMap succeeds, a key's value is everything after the first `=`
   * of the LAST entry whose name is `prefix + key`: a later entry for the
   * same stripped key overwrites an earlier one.
   */
  lemma {:induction false} PrefixedEnvLastWins(environ: seq<string>, prefix: string, key: string, i: nat)
    requires PrefixedEnv(environ, prefix).Ok?
    requires i < |environ| && Names(environ[i], prefix, key)
    requires forall j :: i < j < |environ| ==> !Names(environ[j], prefix, key)
    ensures key in PrefixedEnv(environ, prefix).value
    ensures PrefixedEnv(environ, prefix).value[key] == SplitAtFirst(environ[i]).value.1
  {
    var n := |environ| - 1;
    var init := environ[..n];
    var last := environ[n];
    OkUnfold(environ, prefix);
    var env := PrefixedEnv(init, prefix).value;
    if i < n {
      assert !Names(last, prefix, key);
      forall j | i < j < n
        ensures !Names(init[j], prefix, key)
      {
        assert init[j] == environ[j];
      }
      assert init[i] == environ[i];
      PrefixedEnvLastWins(init, prefix, key, i);
    }
    StepEntry(env, last, prefix, key);
  }

  /** The loop of main.go:18-27, stopping at the first fatal entry. */
  method EnvMap(environ: seq<string>, prefix: string) returns (r: Result<map<string, string>, Error>)
    ensures r == PrefixedEnv(environ, prefix)
  {
    var env: map<string, string> := map[];
    var i := 0;
    while i < |environ|
      invariant 0 <= i <= |environ|
      invariant PrefixedEnv(environ[..i], prefix) == Ok(env)
    {
      var item := environ[i];
      assert environ[..i + 1][..i] == environ[..i];
      var kv := SplitAtFirst(item);
      if kv.None? {
        ErrorIsFinal(environ, prefix, i + 1);
        return Err(BadEnvironmentVariable(item));
      }
      if prefix <= kv.value.0 {
        env := env[kv.value.0[|prefix|..] := kv.value.1];
      }
      i := i + 1;
    }
    assert environ[..i] == environ;
    return Ok(env);
  }
}
