/**
 * `main` of the stack updater (main.go:31-152): read the settings, discover
 * the template's or the stack's parameters and capabilities, reconcile the
 * overrides, assemble the update request, then wait, update and wait.
 *
 * `os.Getenv` results arrive in `Inputs`; the answers of the outside calls
 * (the AWS SDK calls and `ioutil.ReadFile`) arrive in `Cloud`. A run returns
 * the outside calls it made, in order, and `Ok(())` or the fatal error it
 * stopped at.
 */
module StackUpdater {
  import opened Wrappers
  import opened Fatal
  import opened EnvPrefix
  import opened Parameters
  import opened Request

  /** The prefix EnvMap strips from the override variables (main.go:37). */
  const ParameterPrefix := "INPUT_PARAMETER-"

  /** The environment the program reads: five `os.Getenv` values and `os.Environ()`. */
  datatype Inputs = Inputs(
    templateFile: string,   // INPUT_TEMPLATE-FILE
    templateURL: string,    // INPUT_TEMPLATE-URL
    stackId: string,        // INPUT_STACK-ID
    waitBefore: string,     // INPUT_WAIT-BEFORE
    waitAfter: string,      // INPUT_WAIT-AFTER
    environ: seq<string>)   // every KEY=VALUE entry

  /** What ValidateTemplate, or one stack of DescribeStacks, declares. */
  datatype Declared = Declared(capabilities: seq<Capability>, parameterKeys: seq<string>)

  /** The answers the run gets; `None` or `false` is a failed call. */
  datatype Cloud = Cloud(
    configLoads: bool,                      // config.LoadDefaultConfig
    fileContents: Option<string>,           // ioutil.ReadFile of the template file
    validation: Option<Declared>,           // ValidateTemplate
    description: Option<seq<Declared>>,     // DescribeStacks: the stacks returned
    waitBeforeSucceeds: bool,               // the waiter before the update
    updateSucceeds: bool,                   // UpdateStack
    waitAfterSucceeds: bool)                // the waiter after the update

  /** The outside calls a run makes. */
  datatype Call =
    | LoadDefaultConfig
    | ReadFile(path: string)
    | ValidateTemplateBody(body: string)
    | ValidateTemplateURL(url: string)
    | DescribeStacks(stackName: string)
    | WaitBeforeUpdate(stackName: string)
    | UpdateStack(request: UpdateRequest)
    | WaitAfterUpdate(stackName: string)

  predicate Succeeds(c: Call, cloud: Cloud)
  {
    match c
    case LoadDefaultConfig => cloud.configLoads
    case ReadFile(_) => cloud.fileContents.Some?
    case ValidateTemplateBody(_) => cloud.validation.Some?
    case ValidateTemplateURL(_) => cloud.validation.Some?
    case DescribeStacks(_) => cloud.description.Some?
    case WaitBeforeUpdate(_) => cloud.waitBeforeSucceeds
    case UpdateStack(_) => cloud.updateSucceeds
    case WaitAfterUpdate(_) => cloud.waitAfterSucceeds
  }

  /** The calls made before the request is assembled. */
  predicate Preliminary(c: Call)
  {
    c.LoadDefaultConfig? || c.ReadFile? || c.ValidateTemplateBody? || c.ValidateTemplateURL? || c.DescribeStacks?
  }

  /** The template body to send (empty unless a file was read) and what was declared. */
  datatype Discovered = Discovered(templateBody: string, declared: Declared)

  datatype Discovery = Discovery(calls: seq<Call>, outcome: Result<Discovered, Error>)

  /** The overrides: `EnvMap("INPUT_PARAMETER-")`. */
  function Overrides(inputs: Inputs): Result<map<string, string>, Error>
  {
    PrefixedEnv(inputs.environ, ParameterPrefix)
  }

  /**
   * main.go:48-99 without the seeding loops: the template file takes
   * priority over the URL, and with neither the stack is described and must
   * come back as exactly one stack.
   */
  function Discover(inputs: Inputs, cloud: Cloud): (d: Discovery)
    ensures |d.calls| >= 1 && forall i :: 0 <= i < |d.calls| ==> Preliminary(d.calls[i])
    ensures forall i :: 0 <= i < |d.calls| - 1 ==> Succeeds(d.calls[i], cloud)
    ensures d.outcome.Ok? ==> forall i :: 0 <= i < |d.calls| ==> Succeeds(d.calls[i], cloud)
    // a named file wins over the URL: read it, then validate its contents
    ensures inputs.templateFile != "" ==>
      (cloud.fileContents.None? ==>
         d.calls == [ReadFile(inputs.templateFile)] && d.outcome == Err(TemplateReadFailed(inputs.templateFile))) &&
      (cloud.fileContents.Some? ==>
         d.calls == [ReadFile(inputs.templateFile), ValidateTemplateBody(cloud.fileContents.value)])
    // no file but a URL: validate by URL
    ensures inputs.templateFile == "" && inputs.templateURL != "" ==>
      d.calls == [ValidateTemplateURL(inputs.templateURL)]
    // once validation is asked, by body or by URL, its failure is the only other error
    ensures (if inputs.templateFile != "" then cloud.fileContents.Some? else inputs.templateURL != "") ==>
      (d.outcome.Err? <==> cloud.validation.None?) &&
      (d.outcome.Err? ==> d.outcome.error == TemplateValidationFailed)
    // neither: describe the stack, which must come back alone
    ensures inputs.templateFile == "" && inputs.templateURL == "" ==>
      d.calls == [DescribeStacks(inputs.stackId)] &&
      (cloud.description.None? ==> d.outcome == Err(StackDescribeFailed(inputs.stackId))) &&
      (cloud.description.Some? && |cloud.description.value| != 1 ==>
        d.outcome == Err(StackNotReturned(inputs.stackId))) &&
      (cloud.description.Some? && |cloud.description.value| == 1 ==> d.outcome.Ok?)
    // what is discovered: the validation's declaration, or the one stack's
    ensures d.outcome.Ok? ==>
      d.outcome.value.declared ==
        (if inputs.templateFile != "" || inputs.templateURL != "" then cloud.validation.value
         else cloud.description.value[0])
    // the body to send is the file's contents, and empty when no file is named
    ensures d.outcome.Ok? ==>
      d.outcome.value.templateBody == (if inputs.templateFile != "" then cloud.fileContents.value else "")
  {
    if inputs.templateFile != "" then
      match cloud.fileContents
      case None => Discovery([ReadFile(inputs.templateFile)], Err(TemplateReadFailed(inputs.templateFile)))
      case Some(body) =>
        var calls := [ReadFile(inputs.templateFile), ValidateTemplateBody(body)];
        match cloud.validation
        case None => Discovery(calls, Err(TemplateValidationFailed))
        case Some(declared) => Discovery(calls, Ok(Discovered(body, declared)))
    else if inputs.templateURL != "" then
      var calls := [ValidateTemplateURL(inputs.templateURL)];
      match cloud.validation
      case None => Discovery(calls, Err(TemplateValidationFailed))
      case Some(declared) => Discovery(calls, Ok(Discovered("", declared)))
    else
      var calls := [DescribeStacks(inputs.stackId)];
      match cloud.description
      case None => Discovery(calls, Err(StackDescribeFailed(inputs.stackId)))
      case Some(stacks) =>
        if |stacks| != 1 then Discovery(calls, Err(StackNotReturned(inputs.stackId)))
        else Discovery(calls, Ok(Discovered("", stacks[0])))
  }

  /** Every step before the waits succeeded and every override names a known parameter. */
  ghost predicate Reconciles(inputs: Inputs, cloud: Cloud)
  {
    Overrides(inputs).Ok? && cloud.configLoads && Discover(inputs, cloud).outcome.Ok? &&
    Overrides(inputs).value.Keys <= Seeded(Discover(inputs, cloud).outcome.value.declared.parameterKeys).Keys
  }

  /** The parameter set the request is built from. */
  ghost function ReconciledParams(inputs: Inputs, cloud: Cloud): map<string, Parameter>
    requires Reconciles(inputs, cloud)
  {
    Merged(Seeded(Discover(inputs, cloud).outcome.value.declared.parameterKeys), Overrides(inputs).value)
  }

  /** `req` is the update request main.go:112-127 builds for this run. */
  ghost predicate IsUpdateFor(req: UpdateRequest, inputs: Inputs, cloud: Cloud)
    requires Reconciles(inputs, cloud)
  {
    var found := Discover(inputs, cloud).outcome.value;
    req.stackName == inputs.stackId &&
    req.capabilities == found.declared.capabilities &&
    req.template == ChooseTemplate(found.templateBody, inputs.templateURL) &&
    exists order :: Listing(req.parameters, ReconciledParams(inputs, cloud), order)
  }

  /** The calls of a run that gets to the waits and the update (main.go:129-150). */
  function UpdatePhase(inputs: Inputs, req: UpdateRequest): seq<Call>
  {
    (if inputs.waitBefore == "true" then [WaitBeforeUpdate(inputs.stackId)] else []) +
    [UpdateStack(req)] +
    (if inputs.waitAfter == "true" then [WaitAfterUpdate(inputs.stackId)] else [])
  }

  /**
   * main.go:37 and 43-127: everything up to the assembled request. Fails
   * with the first fatal error, or gives the request the run would send.
   */
  method Prepare(inputs: Inputs, cloud: Cloud) returns (calls: seq<Call>, r: Result<UpdateRequest, Error>)
    // a bad environment entry is fatal before any outside call
    ensures Overrides(inputs).Err? ==> calls == [] && r == Err(Overrides(inputs).error)
    ensures forall i :: 0 <= i < |calls| ==> Preliminary(calls[i])
    // the first failure stops the run
    ensures forall i :: 0 <= i < |calls| - 1 ==> Succeeds(calls[i], cloud)
    ensures r.Ok? ==> forall i :: 0 <= i < |calls| ==> Succeeds(calls[i], cloud)
    // no stack or several: fatal before seeding and merging, whatever the overrides
    ensures (Overrides(inputs).Ok? && cloud.configLoads && inputs.templateFile == "" && inputs.templateURL == "" &&
             cloud.description.Some? && |cloud.description.value| != 1) ==>
        r == Err(StackNotReturned(inputs.stackId)) && calls == [LoadDefaultConfig, DescribeStacks(inputs.stackId)]
    // an unknown override is fatal
    ensures (Overrides(inputs).Ok? && cloud.configLoads && Discover(inputs, cloud).outcome.Ok? &&
             !(Overrides(inputs).value.Keys <= Seeded(Discover(inputs, cloud).outcome.value.declared.parameterKeys).Keys)) ==>
        calls == [LoadDefaultConfig] + Discover(inputs, cloud).calls &&
        r.Err? && r.error.UnknownParameter? && r.error.key in Overrides(inputs).value &&
        r.error.key !in Seeded(Discover(inputs, cloud).outcome.value.declared.parameterKeys)
    // otherwise the request is the reconciled one
    ensures r.Ok? <==> Reconciles(inputs, cloud)
    ensures r.Ok? ==> IsUpdateFor(r.value, inputs, cloud) && calls == [LoadDefaultConfig] + Discover(inputs, cloud).calls
    // past the environment: the config load, then discovery if the config loaded
    ensures Overrides(inputs).Ok? ==>
      calls == [LoadDefaultConfig] + (if cloud.configLoads then Discover(inputs, cloud).calls else [])
    ensures Overrides(inputs).Ok? && !cloud.configLoads ==> r == Err(ConfigLoadFailed)
    ensures Overrides(inputs).Ok? && cloud.configLoads && Discover(inputs, cloud).outcome.Err? ==>
      r == Err(Discover(inputs, cloud).outcome.error)
  {
    var overrides := EnvMap(inputs.environ, ParameterPrefix);
    if overrides.Err? {
      return [], Err(overrides.error);
    }
    calls := [LoadDefaultConfig];
    if !cloud.configLoads {
      return calls, Err(ConfigLoadFailed);
    }
    var discovery := Discover(inputs, cloud);
    calls := calls + discovery.calls;
    if discovery.outcome.Err? {
      return calls, Err(discovery.outcome.error);
    }
    var found := discovery.outcome.value;
    var params := Seed(found.declared.parameterKeys);
    var merged := Merge(params, overrides.value);
    if merged.Err? {
      return calls, Err(merged.error);
    }
    var req, order := Assemble(inputs.stackId, found.declared.capabilities, merged.value,
                               found.templateBody, inputs.templateURL);
    assert merged.value == ReconciledParams(inputs, cloud);
    assert Listing(req.parameters, ReconciledParams(inputs, cloud), order);
    return calls, Ok(req);
  }

  /**
   * main.go:129-150: the optional wait, the update, the optional wait,
   * each fatal when it fails.
   */
  method UpdateSteps(inputs: Inputs, cloud: Cloud, req: UpdateRequest) returns (calls: seq<Call>, result: Result<(), Error>)
    ensures |calls| >= 1 && calls <= UpdatePhase(inputs, req)
    ensures forall i :: 0 <= i < |calls| - 1 ==> Succeeds(calls[i], cloud)
    ensures result.Ok? ==> calls == UpdatePhase(inputs, req) && Succeeds(calls[|calls| - 1], cloud)
    ensures result.Err? ==> !Succeeds(calls[|calls| - 1], cloud)
    ensures result.Ok? <==>
      ((inputs.waitBefore == "true" ==> cloud.waitBeforeSucceeds) && cloud.updateSucceeds &&
       (inputs.waitAfter == "true" ==> cloud.waitAfterSucceeds))
    // each step that fails gives its own error
    ensures result == Err(WaitBeforeFailed) <==> inputs.waitBefore == "true" && !cloud.waitBeforeSucceeds
    ensures result == Err(UpdateFailed) <==>
      (inputs.waitBefore == "true" ==> cloud.waitBeforeSucceeds) && !cloud.updateSucceeds
    ensures result == Err(WaitAfterFailed) <==>
      (inputs.waitBefore == "true" ==> cloud.waitBeforeSucceeds) && cloud.updateSucceeds &&
      inputs.waitAfter == "true" && !cloud.waitAfterSucceeds
  {
    var waitBefore := inputs.waitBefore == "true";
    var waitAfter := inputs.waitAfter == "true";
    calls := [];
    if waitBefore {
      calls := [WaitBeforeUpdate(inputs.stackId)];
      if !cloud.waitBeforeSucceeds {
        return calls, Err(WaitBeforeFailed);
      }
    }
    calls := calls + [UpdateStack(req)];
    if !cloud.updateSucceeds {
      return calls, Err(UpdateFailed);
    }
    if waitAfter {
      calls := calls + [WaitAfterUpdate(inputs.stackId)];
      if !cloud.waitAfterSucceeds {
        return calls, Err(WaitAfterFailed);
      }
    }
    result := Ok(());
  }

  /**
   * In the calls before the request is ready followed by some of the update
   * phase, the update is the given request, right after the wait exactly
   * when the wait was requested.
   */
  lemma UpdateOnce(before: seq<Call>, steps: seq<Call>, inputs: Inputs, req: UpdateRequest)
    requires |before| >= 1 && forall i :: 0 <= i < |before| ==> Preliminary(before[i])
    requires steps <= UpdatePhase(inputs, req)
    ensures forall i :: 0 <= i < |before + steps| && (before + steps)[i].UpdateStack? ==>
      (before + steps)[i].request == req &&
      (inputs.waitBefore == "true" <==> i > 0 && (before + steps)[i - 1] == WaitBeforeUpdate(inputs.stackId))
  {
    var all := before + steps;
    var phase := UpdatePhase(inputs, req);
    forall i | 0 <= i < |all| && all[i].UpdateStack?
      ensures all[i].request == req
      ensures inputs.waitBefore == "true" <==> i > 0 && all[i - 1] == WaitBeforeUpdate(inputs.stackId)
    {
      assert i >= |before|;
      var j := i - |before|;
      assert all[i] == steps[j] == phase[j];
      if inputs.waitBefore == "true" {
        assert j == 1 && all[i - 1] == steps[0] == phase[0];
      } else {
        assert j == 0 && all[i - 1] == before[|before| - 1];
      }
    }
  }

  /**
   * Successful calls followed by calls that stop at their first failure
   * stop at their first failure too.
   */
  lemma ComposeSucceeds(cloud: Cloud, before: seq<Call>, steps: seq<Call>)
    requires forall i :: 0 <= i < |before| ==> Succeeds(before[i], cloud)
    requires |steps| >= 1 && forall i :: 0 <= i < |steps| - 1 ==> Succeeds(steps[i], cloud)
    ensures forall i :: 0 <= i < |before + steps| - 1 ==> Succeeds((before + steps)[i], cloud)
    ensures Succeeds(steps[|steps| - 1], cloud) ==>
      forall i :: 0 <= i < |before + steps| ==> Succeeds((before + steps)[i], cloud)
  {
    var all := before + steps;
    assert forall i :: 0 <= i < |before| ==> all[i] == before[i];
    assert forall i :: |before| <= i < |all| ==> all[i] == steps[i - |before|];
  }

  /** A whole run of main.go:31-152. */
  method Run(inputs: Inputs, cloud: Cloud) returns (calls: seq<Call>, result: Result<(), Error>)
    // a bad environment entry is fatal before any outside call
    ensures Overrides(inputs).Err? ==> calls == [] && result == Err(Overrides(inputs).error)
    // the first failure stops the run
    ensures forall i :: 0 <= i < |calls| - 1 ==> Succeeds(calls[i], cloud)
    ensures result.Ok? ==> forall i :: 0 <= i < |calls| ==> Succeeds(calls[i], cloud)
    // no stack or several: fatal before seeding and merging, whatever the overrides
    ensures (Overrides(inputs).Ok? && cloud.configLoads && inputs.templateFile == "" && inputs.templateURL == "" &&
             cloud.description.Some? && |cloud.description.value| != 1) ==>
        result == Err(StackNotReturned(inputs.stackId)) && calls == [LoadDefaultConfig, DescribeStacks(inputs.stackId)]
    // an unknown override is fatal before any wait or update
    ensures (Overrides(inputs).Ok? && cloud.configLoads && Discover(inputs, cloud).outcome.Ok? &&
             !(Overrides(inputs).value.Keys <= Seeded(Discover(inputs, cloud).outcome.value.declared.parameterKeys).Keys)) ==>
        calls == [LoadDefaultConfig] + Discover(inputs, cloud).calls &&
        result.Err? && result.error.UnknownParameter? && result.error.key in Overrides(inputs).value &&
        result.error.key !in Seeded(Discover(inputs, cloud).outcome.value.declared.parameterKeys)
    // an update is issued only for known overrides, with the assembled request,
    // and right after the requested wait, which succeeded
    ensures forall i :: 0 <= i < |calls| && calls[i].UpdateStack? ==>
      Reconciles(inputs, cloud) && IsUpdateFor(calls[i].request, inputs, cloud) &&
      (inputs.waitBefore == "true" <==> i > 0 && calls[i - 1] == WaitBeforeUpdate(inputs.stackId))
    // the whole run succeeds exactly when every step does
    ensures result.Ok? <==>
      (Reconciles(inputs, cloud) &&
       (inputs.waitBefore == "true" ==> cloud.waitBeforeSucceeds) && cloud.updateSucceeds &&
       (inputs.waitAfter == "true" ==> cloud.waitAfterSucceeds))
    ensures result.Ok? ==>
      (Reconciles(inputs, cloud) &&
       exists req :: IsUpdateFor(req, inputs, cloud) &&
         calls == [LoadDefaultConfig] + Discover(inputs, cloud).calls + UpdatePhase(inputs, req))
    // a config or discovery failure, or an unknown override, stops the run before any wait or update
    ensures Overrides(inputs).Ok? && !Reconciles(inputs, cloud) ==>
      calls == [LoadDefaultConfig] + (if cloud.configLoads then Discover(inputs, cloud).calls else [])
    ensures Overrides(inputs).Ok? && !cloud.configLoads ==> result == Err(ConfigLoadFailed)
    ensures Overrides(inputs).Ok? && cloud.configLoads && Discover(inputs, cloud).outcome.Err? ==>
      result == Err(Discover(inputs, cloud).outcome.error)
    // once reconciled, the run goes on into the update phase, cut at its first failure
    ensures Reconciles(inputs, cloud) ==>
      exists req :: IsUpdateFor(req, inputs, cloud) &&
        [LoadDefaultConfig] + Discover(inputs, cloud).calls <= calls &&
        calls[|[LoadDefaultConfig] + Discover(inputs, cloud).calls|..] <= UpdatePhase(inputs, req)
    // and the failing call of the update phase is the last one made
    ensures Reconciles(inputs, cloud) && result.Err? ==>
      |calls| > |[LoadDefaultConfig] + Discover(inputs, cloud).calls| && !Succeeds(calls[|calls| - 1], cloud)
    ensures Reconciles(inputs, cloud) ==>
      (result == Err(WaitBeforeFailed) <==> inputs.waitBefore == "true" && !cloud.waitBeforeSucceeds) &&
      (result == Err(UpdateFailed) <==>
        (inputs.waitBefore == "true" ==> cloud.waitBeforeSucceeds) && !cloud.updateSucceeds) &&
      (result == Err(WaitAfterFailed) <==>
        (inputs.waitBefore == "true" ==> cloud.waitBeforeSucceeds) && cloud.updateSucceeds &&
        inputs.waitAfter == "true" && !cloud.waitAfterSucceeds)
  {
    var prepared;
    calls, prepared := Prepare(inputs, cloud);
    if prepared.Err? {
      assert !Reconciles(inputs, cloud);
      assert forall i :: 0 <= i < |calls| ==> !calls[i].UpdateStack?;
      return calls, Err(prepared.error);
    }
    assert Reconciles(inputs, cloud);
    var req := prepared.value;
    ghost var before := calls;
    var steps;
    steps, result := UpdateSteps(inputs, cloud, req);
    calls := calls + steps;
    ComposeSucceeds(cloud, before, steps);
    UpdateOnce(before, steps, inputs, req);
    assert calls[|before|..] == steps;
  }
}
