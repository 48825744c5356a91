# cfn-update-action, modelled in Dafny

A command-line action that updates an AWS CloudFormation stack. It reads its
settings from the environment, finds the parameters and capabilities of the
template (from a local file or a URL) or of the stack itself, applies the
parameter overrides given as `INPUT_PARAMETER-<NAME>` variables, assembles one
`UpdateStack` request, and runs an optional wait, the update and an optional
wait. Every error is fatal (`log.Fatalf`).

The model follows `main.go`:

- `EnvPrefix` (`env_prefix.dfy`): `EnvMap`, a loop over the `KEY=VALUE`
  entries of the environment, against the reference function `PrefixedEnv`
  and lemmas about it (which keys, which values, when it fails).
- `Parameters` (`parameters.dfy`): the seeding loops (`Seed` against
  `Seeded`) and the override loop (`Merge` against `Merged`).
- `Request` (`request.dfy`): the request assembly loop (`Assemble`) and the
  choice of template source (`ChooseTemplate`).
- `StackUpdater` (`stack_updater.dfy`): `main` as `Run`, made of `Prepare`
  (everything up to the request) and `UpdateSteps` (wait, update, wait). A
  run returns the outside calls it made, in order, and `Ok(())` or the
  fatal error it stopped at.
- `Wrappers`, `Fatal`, `Ascii`: `Option`/`Result`, the fatal errors, and
  ASCII upper-casing.

The environment (`os.Getenv` values and `os.Environ()` entries) is the
`Inputs` record. The answers of the outside calls are the `Cloud` record.
These are the SDK calls (`LoadDefaultConfig`, `ValidateTemplate`,
`DescribeStacks`, the two waits, `UpdateStack`) and `ioutil.ReadFile`. `None` or `false` there is a failed
call.

Two behaviours of `main.go` that are easy to miss:

- Override keys are not upper-cased. `main.go:103` looks each stripped key up
  exactly as it is, while the seeded keys are upper-cased. An override
  `INPUT_PARAMETER-env` is therefore unknown even when the stack declares
  `Env`.
- The template source of the request depends on the file's contents, not on
  whether a file was named (`main.go:121`). A named but empty file leaves the
  body empty. The request then carries the URL, or asks for the previous
  template.

## Model

| member | source | states |
|---|---|---|
| `EnvPrefix.SplitAtFirst` | main.go:20-21 | no result exactly when the entry has no `=`; otherwise the name has no `=` and name, `=`, value make up the entry again |
| `EnvPrefix.SplitJoin` | main.go:20 | splitting `key=value` with `=`-free `key` gives back `key` and the whole of `value`, later `=` included |
| `EnvPrefix.StepEntry` | main.go:20-26 | one entry with `=` keeps the map's other keys, and adds or replaces only the key its name gives after the prefix |
| `EnvPrefix.ErrorIsFinal` | main.go:21-23 | once an entry has been fatal, the later entries do not change the outcome |
| `EnvPrefix.PrefixedEnvFails` | main.go:19-23 | EnvMap fails exactly when some entry has no `=`, whether or not it has the prefix; the error names the first such entry |
| `EnvPrefix.PrefixedEnvKeys` | main.go:24-25 | on success, a key is present exactly when some entry's name is the prefix followed by that key |
| `EnvPrefix.PrefixedEnvLastWins` | main.go:24-25 | on success, a key's value is everything after the first `=` of the last entry with that key |
| `EnvPrefix.EnvMap` | main.go:17-29 | the loop returns what `PrefixedEnv` gives for the entries in order, stopping at the first bad entry |
| `Parameters.Seed` | main.go:92-98 | the seeding loop (the same at lines 61-66 and 75-80) builds `Seeded` of the declared keys |
| `Parameters.SeededKeys` | main.go:61-66 | after seeding, the key set is exactly the set of upper-cased declared keys |
| `Parameters.SeededEntries` | main.go:75-80 | after seeding, every entry is "use previous value" with no value, filed under its own key upper-cased |
| `Parameters.SeededLastWins` | main.go:92-98 | keys equal up to case share one entry, which holds the last such declared key |
| `Parameters.Merged` | main.go:101-106 | same keys; an overridden entry keeps its key, is not "use previous value" and holds exactly the override; other entries are unchanged |
| `Parameters.Merge` | main.go:101-110 | fails exactly when some override key is not a seeded key, naming such a key; on success gives `Merged` |
| `Parameters.Reconciled` | main.go:92-106 | after seeding and a successful merge, an entry is "use previous value" exactly when it has no override, and holds the override's value or none |
| `Parameters.ScenarioEnvProd` | main.go:92-106 | a stack with `Env` and `Size` and override `ENV=prod` gives `ENV` set to `prod` and `SIZE` kept |
| `Request.ChooseTemplate` | main.go:121-127 | exactly one template field is set: the body if non-empty, else the URL if non-empty, else use-previous-template = true |
| `Request.Assemble` | main.go:112-127 | the request has the stack name and the capabilities unchanged, one parameter per map entry (a listing of the map in some order) and the chosen template source |
| `StackUpdater.Discover` | main.go:48-99 | a named file wins over the URL: read, then validate its contents; else validate by URL; else describe the stack, where a failed call or a count other than one is fatal; every call but the last succeeded; the result is the validation's declaration or the one stack's, with the file's contents (empty without a file) as body |
| `StackUpdater.Prepare` | main.go:31-127 | a bad entry is fatal before any call; otherwise the calls are the config load, then discovery if it loaded, with the config-load or discovery error when one fails; fail-stop; the stack-count and unknown-override errors; succeeds exactly when every override is known, with the reconciled request |
| `StackUpdater.UpdateSteps` | main.go:129-150 | the calls are a prefix of wait (when `INPUT_WAIT-BEFORE` is exactly `true`), update, wait (likewise after), cut at the first failure, which gives its own error |
| `StackUpdater.UpdateOnce` | main.go:129-141 | in a run's calls, the update carries the assembled request and comes right after the wait exactly when the wait was requested |
| `StackUpdater.Run` | main.go:31-152 | the full call sequence and error on every path: a config or discovery failure or unknown override stops before any wait or update; once reconciled, the update phase is cut at its first failure, whose call is the last one made, with that step's error; fail-stop; no update with an unknown override or a bad stack count; an update only after the requested wait succeeded; success exactly when every step succeeds, with the full call sequence |

## Left out

- The AWS SDK calls are not modelled. Their answers are inputs (`Cloud`), and
  ValidateTemplate gives the same answer whether asked by body or by URL.
- `ioutil.ReadFile`, `os.Getenv` and `os.Environ` are not modelled. Their
  results are inputs. Go's own removal of duplicate environment entries is
  not modelled either.
- The 60-minute bound of the waiters is not modelled. A wait only succeeds or
  fails.
- `strings.ToUpper` is ASCII-only here (`Ascii.Upper`). Unicode case mapping
  is not modelled.
- Go's map iteration order is not modelled. The loops over the override map
  and over the parameter map pick any remaining key. The request's parameter
  list is described as a listing of the map in some order.
- `Parameters.Merge`: says only that the error names some unknown override.
  Which one Go names depends on its map iteration order.
- The parameter map holds pointers, and the seeded entry shares the
  `ParameterKey` pointer of the SDK answer. The model copies values. No other
  code sees these pointers, so nothing observable is lost.
- Log messages are not modelled. That includes the misnamed variable in the
  message at line 58.
- The credential-logging diagnostic file is not part of this model.
- A `ParameterKey` that is nil in an SDK answer makes lines 62, 76 and 94
  panic. The model's keys are plain strings, so this panic is not modelled.
- Environment bytes that are not valid UTF-8 are not modelled. Strings are
  sequences of characters.
- The message at line 148 says "Wait before update failed" for the wait
  after the update. Log text is not modelled, so the model's
  `WaitAfterFailed` does not carry this wording.
