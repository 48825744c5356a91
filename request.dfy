/**
 * Assembly of the `UpdateStackInput` (main.go:112-127): the stack name, the
 * capabilities, the parameter set flattened into a list, and one template
 * source.
 */
module Request {
  import opened Wrappers
  import opened Parameters

  type Capability = string

  /**
   * The three template fields of `UpdateStackInput`; `None` is a nil
   * pointer. The updater sets exactly one of them.
   */
  datatype TemplateFields = TemplateFields(
    templateBody: Option<string>,
    templateURL: Option<string>,
    usePreviousTemplate: Option<bool>)

  datatype UpdateRequest = UpdateRequest(
    stackName: string,
    capabilities: seq<Capability>,
    parameters: seq<Parameter>,
    template: TemplateFields)

  /** How many of the three template fields are set. */
  function SetCount(t: TemplateFields): nat
  {
    (if t.templateBody.Some? then 1 else 0) +
    (if t.templateURL.Some? then 1 else 0) +
    (if t.usePreviousTemplate.Some? then 1 else 0)
  }

  /**
   * main.go:121-127. `body` is the template file's contents, empty when no
   * file was named; `url` is the template URL setting.
   */
  function ChooseTemplate(body: string, url: string): (t: TemplateFields)
    ensures SetCount(t) == 1
    ensures t.templateBody == (if body != "" then Some(body) else None)
    ensures t.templateURL == (if body == "" && url != "" then Some(url) else None)
    ensures t.usePreviousTemplate.Some? <==> body == "" && url == ""
    ensures t.usePreviousTemplate.Some? ==> t.usePreviousTemplate.value
  {
    if body != "" then TemplateFields(Some(body), None, None)
    else if url != "" then TemplateFields(None, Some(url), None)
    else TemplateFields(None, None, Some(true))
  }

  /** No key occurs twice in `order`. */
  ghost predicate Distinct(order: seq<string>)
  {
    forall i, j :: 0 <= i < j < |order| ==> order[i] != order[j]
  }

  /**
   * `list` holds the entries of `m`, one per key, in the key order `order`:
   * a listing of the map in some iteration order.
   */
  ghost predicate Listing(list: seq<Parameter>, m: map<string, Parameter>, order: seq<string>)
  {
    |list| == |order| == |m| && Distinct(order) &&
    (forall k :: k in m <==> k in order) &&
    (forall i :: 0 <= i < |list| ==> order[i] in m && list[i] == m[order[i]])
  }

  /**
   * main.go:112-127. Go ranges over the parameter map in no fixed order;
   * the loop picks any key not yet appended, and `order` records the order
   * it chose.
   */
  method Assemble(stackName: string, capabilities: seq<Capability>, params: map<string, Parameter>,
                  body: string, url: string)
    returns (req: UpdateRequest, ghost order: seq<string>)
    ensures req.stackName == stackName
    ensures req.capabilities == capabilities
    ensures |req.parameters| == |params|
    ensures Listing(req.parameters, params, order)
    ensures req.template == ChooseTemplate(body, url)
  {
    var list: seq<Parameter> := [];
    order := [];
    var remaining := params.Keys;
    while remaining != {}
      invariant remaining <= params.Keys
      invariant |list| == |order| && |order| + |remaining| == |params|
      invariant Distinct(order)
      invariant forall k :: k in order <==> k in params && k !in remaining
      invariant forall i :: 0 <= i < |list| ==> order[i] in params && list[i] == params[order[i]]
      decreases remaining
    {
      var k :| k in remaining;
      list := list + [params[k]];
      order := order + [k];
      remaining := remaining - {k};
    }
    req := UpdateRequest(stackName, capabilities, list, ChooseTemplate(body, url));
  }
}
