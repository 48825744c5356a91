/**
 * The parameter set of main.go: seeded from the keys that template
 * validation or stack description declares (main.go:61-66, 75-80, 92-98),
 * then merged with the overrides from the environment (main.go:101-110).
 * The Go map from an upper-cased key to a `*types.Parameter` becomes a
 * `map<string, Parameter>`; updating an entry through its pointer becomes
 * replacing the map's value for that key.
 */
module Parameters {
  import opened Wrappers
  import opened Fatal
  import opened Ascii

  /** The fields of `types.Parameter` the updater sets. */
  datatype Parameter = Parameter(key: string, usePreviousValue: bool, value: Option<string>)

  /** The entry seeding puts under `Upper(key)`: keep whatever the stack has now. */
  function Kept(key: string): Parameter
  {
    Parameter(key, true, None)
  }

  /** The entry an override turns an existing one into. */
  function Overridden(p: Parameter, v: string): Parameter
  {
    p.(usePreviousValue := false, value := Some(v))
  }

  /** The map the seeding loop builds from the declared keys, in order. */
  function Seeded(declared: seq<string>): map<string, Parameter>
  {
    if |declared| == 0 then map[]
    else
      var key := declared[|declared| - 1];
      Seeded(declared[..|declared| - 1])[Upper(key) := Kept(key)]
  }

  /** One of the seeding loops: main.go:61-66, 75-80 and 92-98 are the same loop. */
  method Seed(declared: seq<string>) returns (params: map<string, Parameter>)
    ensures params == Seeded(declared)
  {
    params := map[];
    for i := 0 to |declared|
      invariant params == Seeded(declared[..i])
    {
      assert declared[..i + 1][..i] == declared[..i];
      params := params[Upper(declared[i]) := Kept(declared[i])];
    }
    assert declared[..|declared|] == declared;
  }

  /** After seeding, the keys are exactly the upper-cased declared keys. */
  lemma {:induction false} SeededKeys(declared: seq<string>)
    ensures Seeded(declared).Keys == set i | 0 <= i < |declared| :: Upper(declared[i])
  {
    if |declared| > 0 {
      var n := |declared| - 1;
      var init := declared[..n];
      SeededKeys(init);
      assert forall i :: 0 <= i < n ==> init[i] == declared[i];
      assert (set i | 0 <= i < |declared| :: Upper(declared[i]))
          == (set i | 0 <= i < n :: Upper(init[i])) + {Upper(declared[n])};
    }
  }

  /**
   * After seeding, every entry says "use the previous value", carries no
   * value, and sits under the upper-cased form of its own key, which is
   * one of the declared keys.
   */
  lemma {:induction false} SeededEntries(declared: seq<string>)
    ensures forall k :: k in Seeded(declared) ==>
      Seeded(declared)[k].usePreviousValue && Seeded(declared)[k].value.None? &&
      Upper(Seeded(declared)[k].key) == k && Seeded(declared)[k].key in declared
  {
    if |declared| > 0 {
      SeededEntries(declared[..|declared| - 1]);
    }
  }

  /**
   * Keys that differ only in case share one entry, and the last declared
   * key with that upper-case form is the one it keeps.
   */
  lemma {:induction false} SeededLastWins(declared: seq<string>, i: nat)
    requires i < |declared|
    requires forall j :: i < j < |declared| ==> Upper(declared[j]) != Upper(declared[i])
    ensures Upper(declared[i]) in Seeded(declared)
    ensures Seeded(declared)[Upper(declared[i])] == Kept(declared[i])
  {
    var n := |declared| - 1;
    if i < n {
      var init := declared[..n];
      assert forall j :: i < j < n ==> init[j] == declared[j];
      SeededLastWins(init, i);
    }
  }

  /** The parameter set after every override has been applied. */
  function Merged(params: map<string, Parameter>, overrides: map<string, string>): (r: map<string, Parameter>)
    ensures r.Keys == params.Keys
    ensures forall k :: k in params && k in overrides ==>
      r[k].key == params[k].key && !r[k].usePreviousValue && r[k].value == Some(overrides[k])
    ensures forall k :: k in params && k !in overrides ==> r[k] == params[k]
  {
    map k | k in params :: if k in overrides then Overridden(params[k], overrides[k]) else params[k]
  }

  /**
   * The override loop of main.go:101-110. Go visits the overrides in no
   * fixed order; the loop here picks any pending key. Override keys are
   * looked up as they are, without upper-casing.
   */
  method Merge(params: map<string, Parameter>, overrides: map<string, string>)
    returns (r: Result<map<string, Parameter>, Error>)
    ensures r.Ok? <==> overrides.Keys <= params.Keys
    ensures r.Err? ==> r.error.UnknownParameter? && r.error.key in overrides && r.error.key !in params
    ensures r.Ok? ==> r.value == Merged(params, overrides)
  {
    var current := params;
    var pending := overrides.Keys;
    while pending != {}
      invariant pending <= overrides.Keys
      invariant current.Keys == params.Keys
      invariant forall k :: k in overrides && k !in pending ==> k in params
      invariant forall k :: k in params ==>
        current[k] == if k in overrides && k !in pending then Overridden(params[k], overrides[k]) else params[k]
      decreases pending
    {
      var k :| k in pending;
      if k in current {
        current := current[k := Overridden(current[k], overrides[k])];
      } else {
        return Err(UnknownParameter(k));
      }
      pending := pending - {k};
    }
    return Ok(current);
  }

  /**
   * Seeding followed by a successful merge: an overridden parameter gives
   * exactly its override and never "use the previous value"; any other one
   * keeps its previous value and gives no value.
   */
  lemma Reconciled(declared: seq<string>, overrides: map<string, string>)
    requires overrides.Keys <= Seeded(declared).Keys
    ensures Merged(Seeded(declared), overrides).Keys == set i | 0 <= i < |declared| :: Upper(declared[i])
    ensures forall k :: k in Merged(Seeded(declared), overrides) ==>
      (Merged(Seeded(declared), overrides)[k].usePreviousValue <==> k !in overrides) &&
      Merged(Seeded(declared), overrides)[k].value == (if k in overrides then Some(overrides[k]) else None)
  {
    SeededKeys(declared);
    SeededEntries(declared);
  }

  /**
   * A stack declaring `Env` and `Size` with the override `ENV=prod`:
   * `ENV` is overridden, `SIZE` keeps its previous value.
   */
  lemma ScenarioEnvProd()
    ensures Merged(Seeded(["Env", "Size"]), map["ENV" := "prod"]) ==
      map["ENV" := Parameter("Env", false, Some("prod")), "SIZE" := Parameter("Size", true, None)]
  {
    assert Upper("Env") == "ENV" && Upper("Size") == "SIZE";
    assert ["Env", "Size"][..1] == ["Env"];
    assert Seeded(["Env", "Size"]) == map["ENV" := Kept("Env"), "SIZE" := Kept("Size")];
  }
}
