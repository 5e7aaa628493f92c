/** Resource configurations and their expansion from templates. */
module Config {
  import opened Common
  import opened Template

  datatype MethodType = NONE | GET | POST | PUT | DELETE | FETCH | PATCH | IPATCH

  datatype MethodConfig = MethodConfig(
    kind: MethodType, formats: seq<string>, printValue: bool, logValue: bool, store: bool,
    cmd: string, cmdStdin: bool, cmdTimeout: nat, cmdLogInput: bool)

  datatype ResourceConfig = ResourceConfig(
    name: string, path: string, logFile: string, initialValue: string, dataFile: string,
    maxAge: nat, observable: bool, dynamic: bool, methods: seq<MethodConfig>)

  datatype TemplateInstance = TemplateInstance(templateId: string, args: seq<string>)

  datatype TemplateConfig = TemplateConfig(ident: string, resources: seq<ResourceConfig>)

  datatype ConfigError = BadString(error: Error) | NoSuchTemplate(ident: string) | CmdNeedsOneFormat

  // ---------- What expansion means ----------

  predicate Usable(s: string, args: seq<string>) { Substitute(s, args).Ok? }

  predicate IsText(s: string, args: seq<string>, text: string) { Substitute(s, args) == Ok(text) }

  ghost predicate MethodUsable(m: MethodConfig, args: seq<string>) {
    (forall j :: 0 <= j < |m.formats| ==> Usable(m.formats[j], args)) && Usable(m.cmd, args)
  }

  /** Every string of a method is substituted, everything else is kept. */
  ghost predicate IsMethod(m: MethodConfig, args: seq<string>, r: MethodConfig)
  {
    && r == m.(formats := r.formats, cmd := r.cmd) && IsText(m.cmd, args, r.cmd)
    && |r.formats| == |m.formats|
    && forall j :: 0 <= j < |m.formats| ==> IsText(m.formats[j], args, r.formats[j])
  }

  ghost predicate ResourceUsable(c: ResourceConfig, args: seq<string>) {
    && Usable(c.name, args) && Usable(c.path, args) && Usable(c.logFile, args)
    && Usable(c.dataFile, args) && Usable(c.initialValue, args)
    && forall j :: 0 <= j < |c.methods| ==> MethodUsable(c.methods[j], args)
  }

  /** Every string of a resource is substituted; only the dynamic mark is dropped. */
  ghost predicate IsResource(c: ResourceConfig, args: seq<string>, r: ResourceConfig)
  {
    && IsText(c.name, args, r.name) && IsText(c.path, args, r.path) && IsText(c.logFile, args, r.logFile)
    && IsText(c.dataFile, args, r.dataFile) && IsText(c.initialValue, args, r.initialValue)
    && r.maxAge == c.maxAge && r.observable == c.observable && !r.dynamic
    && |r.methods| == |c.methods|
    && forall j :: 0 <= j < |c.methods| ==> IsMethod(c.methods[j], args, r.methods[j])
  }

  /** The first template with the identifier. */
  function Find(templates: seq<TemplateConfig>, ident: string): Option<TemplateConfig> {
    if templates == [] then None
    else if templates[0].ident == ident then Some(templates[0])
    else Find(templates[1..], ident)
  }

  ghost predicate TemplateUsable(t: TemplateConfig, args: seq<string>) {
    forall j :: 0 <= j < |t.resources| ==> ResourceUsable(t.resources[j], args)
  }

  /** `made` are the resources of the template, substituted, in its order. */
  ghost predicate IsTemplate(t: TemplateConfig, args: seq<string>, made: seq<ResourceConfig>)
  {
    |made| == |t.resources| && forall j :: 0 <= j < |made| ==> IsResource(t.resources[j], args, made[j])
  }

  ghost predicate InstanceUsable(templates: seq<TemplateConfig>, i: TemplateInstance) {
    Find(templates, i.templateId).Some? && TemplateUsable(Find(templates, i.templateId).value, i.args)
  }

  /** `made` are the resources of the first template with the instance's identifier. */
  ghost predicate IsInstance(templates: seq<TemplateConfig>, i: TemplateInstance, made: seq<ResourceConfig>)
    requires Find(templates, i.templateId).Some?
  {
    IsTemplate(Find(templates, i.templateId).value, i.args, made)
  }

  ghost predicate InstanceMade(templates: seq<TemplateConfig>, i: TemplateInstance, made: seq<ResourceConfig>) {
    InstanceUsable(templates, i) && IsInstance(templates, i, made)
  }

  /** `parts` are the resources of each of the first instances, in instance order. */
  ghost predicate AreInstances(
    templates: seq<TemplateConfig>, instances: seq<TemplateInstance>, parts: seq<seq<ResourceConfig>>)
  {
    |parts| <= |instances| && forall k :: 0 <= k < |parts| ==> InstanceMade(templates, instances[k], parts[k])
  }

  /** Instance `k` is the first that cannot be expanded; its missing template, or a bad string, is the error. */
  ghost predicate Failed(
    templates: seq<TemplateConfig>, instances: seq<TemplateInstance>, k: nat, error: ConfigError)
    requires k < |instances|
  {
    && (forall j :: 0 <= j < k ==> InstanceUsable(templates, instances[j]))
    && !InstanceUsable(templates, instances[k])
    && if forall j :: 0 <= j < |templates| ==> templates[j].ident != instances[k].templateId
       then error == NoSuchTemplate(instances[k].templateId) else error.BadString?
  }

  // ---------- The expansion loops ----------

  method Replace(s: string, args: seq<string>) returns (r: Result<string, ConfigError>)
    ensures match Substitute(s, args) case Ok(text) => r == Ok(text) case Err(error) => r == Err(BadString(error))
  {
    var text := TemplateReplace(s, args);
    r := if text.Ok? then Ok(text.value) else Err(BadString(text.error));
  }

  method GenerateMethod(m: MethodConfig, args: seq<string>) returns (r: Result<MethodConfig, ConfigError>)
    ensures r.Ok? <==> MethodUsable(m, args)
    ensures r.Ok? ==> IsMethod(m, args, r.value)
    ensures r.Err? ==> r.error.BadString?
  {
    var formats := [];
    for j := 0 to |m.formats|
      invariant |formats| == j
      invariant forall l :: 0 <= l < j ==> Usable(m.formats[l], args) && IsText(m.formats[l], args, formats[l])
    {
      var format :- Replace(m.formats[j], args);
      formats := formats + [format];
    }
    var cmd :- Replace(m.cmd, args);
    return Ok(MethodConfig(
      m.kind, formats, m.printValue, m.logValue, m.store, cmd, m.cmdStdin, m.cmdTimeout, m.cmdLogInput));
  }

  method GenerateResource(c: ResourceConfig, args: seq<string>) returns (r: Result<ResourceConfig, ConfigError>)
    ensures r.Ok? <==> ResourceUsable(c, args)
    ensures r.Ok? ==> IsResource(c, args, r.value)
    ensures r.Err? ==> r.error.BadString?
  {
    var name :- Replace(c.name, args);
    var path :- Replace(c.path, args);
    var logFile :- Replace(c.logFile, args);
    var dataFile :- Replace(c.dataFile, args);
    var initialValue :- Replace(c.initialValue, args);
    var methods := [];
    for j := 0 to |c.methods|
      invariant |methods| == j
      invariant forall l :: 0 <= l < j ==> MethodUsable(c.methods[l], args) && IsMethod(c.methods[l], args, methods[l])
    {
      var meth :- GenerateMethod(c.methods[j], args);
      methods := methods + [meth];
    }
    return Ok(ResourceConfig(name, path, logFile, initialValue, dataFile, c.maxAge, c.observable, false, methods));
  }

  /** Appends the resources of one instance to the list. */
  method GenerateResources(resources: seq<ResourceConfig>, t: TemplateConfig, i: TemplateInstance)
      returns (r: Result<seq<ResourceConfig>, ConfigError>, ghost made: seq<ResourceConfig>)
    ensures r.Ok? <==> TemplateUsable(t, i.args)
    ensures r.Ok? ==> r.value == resources + made && IsTemplate(t, i.args, made)
    ensures r.Err? ==> r.error.BadString?
  {
    var all := resources;
    made := [];
    for j := 0 to |t.resources|
      invariant |made| == j && all == resources + made
      invariant forall l :: 0 <= l < j ==>
        ResourceUsable(t.resources[l], i.args) && IsResource(t.resources[l], i.args, made[l])
    {
      var c :- GenerateResource(t.resources[j], i.args);
      all := all + [c];
      made := made + [c];
    }
    return Ok(all), made;
  }

  lemma {:induction false} FindIs(templates: seq<TemplateConfig>, ident: string, k: nat)
    requires k <= |templates| && forall j :: 0 <= j < k ==> templates[j].ident != ident
    ensures k < |templates| && templates[k].ident == ident ==> Find(templates, ident) == Some(templates[k])
    ensures k == |templates| ==> Find(templates, ident) == None
  {
    if k > 0 {
      FindIs(templates[1..], ident, k - 1);
    }
  }

  method FindTemplate(templates: seq<TemplateConfig>, ident: string) returns (t: Option<TemplateConfig>)
    ensures t == Find(templates, ident)
    ensures t == None ==> forall j :: 0 <= j < |templates| ==> templates[j].ident != ident
    ensures t.Some? ==>
      exists k :: 0 <= k < |templates| && t.value == templates[k] && templates[k].ident == ident
        && forall j :: 0 <= j < k ==> templates[j].ident != ident
  {
    for at := 0 to |templates|
      invariant forall j :: 0 <= j < at ==> templates[j].ident != ident
    {
      FindIs(templates, ident, at);
      if templates[at].ident == ident {
        return Some(templates[at]);
      }
    }
    FindIs(templates, ident, |templates|);
    return None;
  }

  lemma FlattenAppend<T>(front: seq<T>, parts: seq<seq<T>>, last: seq<T>)
    ensures front + Flatten(parts + [last]) == front + Flatten(parts) + last
  {
    assert (parts + [last])[..|parts|] == parts;
  }

  lemma ExtendInstances(
    templates: seq<TemplateConfig>, instances: seq<TemplateInstance>, parts: seq<seq<ResourceConfig>>,
    made: seq<ResourceConfig>)
    requires |parts| < |instances| && AreInstances(templates, instances, parts)
    requires InstanceMade(templates, instances[|parts|], made)
    ensures AreInstances(templates, instances, parts + [made])
  {
    var longer := parts + [made];
    forall k | 0 <= k < |longer|
      ensures InstanceMade(templates, instances[k], longer[k])
    {
      if k < |parts| {
        assert longer[k] == parts[k];
      }
    }
  }

  /**
   * The declared resources come first, then those of each instance in instance
   * order. It fails exactly when a template is missing or a string cannot be
   * substituted.
   */
  method Expand(resources: seq<ResourceConfig>, templates: seq<TemplateConfig>, instances: seq<TemplateInstance>)
      returns (r: Result<seq<ResourceConfig>, ConfigError>, ghost parts: seq<seq<ResourceConfig>>)
    ensures r.Ok? <==> forall k :: 0 <= k < |instances| ==> InstanceUsable(templates, instances[k])
    ensures r.Ok? ==> AreInstances(templates, instances, parts) && |parts| == |instances|
    ensures r.Ok? ==> r.value == resources + Flatten(parts)
    ensures r.Err? ==> |parts| < |instances| && Failed(templates, instances, |parts|, r.error)
  {
    var all := resources;
    parts := [];
    for k := 0 to |instances|
      invariant |parts| == k && AreInstances(templates, instances, parts)
      invariant all == resources + Flatten(parts)
    {
      var i := instances[k];
      var t := FindTemplate(templates, i.templateId);
      if t == None {
        return Err(NoSuchTemplate(i.templateId)), parts;
      }
      var step, made := GenerateResources(all, t.value, i);
      if step.Err? {
        return Err(step.error), parts;
      }
      ExtendInstances(templates, instances, parts, made);
      FlattenAppend(resources, parts, made);
      all := step.value;
      parts := parts + [made];
    }
    return Ok(all), parts;
  }

  // ---------- The rule on commands ----------

  predicate OneFormat(m: MethodConfig) { m.cmd != "" ==> |m.formats| == 1 }

  ghost predicate AllOneFormat(c: ResourceConfig) {
    forall j :: 0 <= j < |c.methods| ==> OneFormat(c.methods[j])
  }

  /** A method as it is read: a command, even an empty one, needs exactly one format. */
  function ReadMethod(m: MethodConfig, cmd: Option<string>): (r: Result<MethodConfig, ConfigError>)
    ensures r.Ok? ==> OneFormat(r.value) && r.value == m.(cmd := if cmd.Some? then cmd.value else "")
    ensures r.Err? <==> cmd.Some? && |m.formats| != 1
  {
    match cmd
    case None => Ok(m.(cmd := ""))
    case Some(c) => if |m.formats| != 1 then Err(CmdNeedsOneFormat) else Ok(m.(cmd := c))
  }

  lemma SubstitutedCommand(m: MethodConfig, args: seq<string>, r: MethodConfig)
    requires OneFormat(m) && IsMethod(m, args, r)
    ensures OneFormat(r)
  {
    if m.cmd == "" {
      assert Parse(m.cmd) == [] && Substitute(m.cmd, args) == Ok("");
    }
  }

  lemma RuleInResource(c: ResourceConfig, args: seq<string>, r: ResourceConfig)
    requires AllOneFormat(c) && IsResource(c, args, r)
    ensures AllOneFormat(r)
  {
    forall j | 0 <= j < |r.methods|
      ensures OneFormat(r.methods[j])
    {
      SubstitutedCommand(c.methods[j], args, r.methods[j]);
    }
  }

  lemma RuleInInstance(templates: seq<TemplateConfig>, i: TemplateInstance, made: seq<ResourceConfig>)
    requires InstanceUsable(templates, i) && IsInstance(templates, i, made)
    requires forall t, c :: t in templates && c in t.resources ==> AllOneFormat(c)
    ensures forall j :: 0 <= j < |made| ==> AllOneFormat(made[j])
  {
    FindFrom(templates, i.templateId);
    var t := Find(templates, i.templateId).value;
    forall j | 0 <= j < |made|
      ensures AllOneFormat(made[j])
    {
      assert t.resources[j] in t.resources;
      RuleInResource(t.resources[j], i.args, made[j]);
    }
  }

  lemma {:induction false} RuleInParts(
    templates: seq<TemplateConfig>, instances: seq<TemplateInstance>, parts: seq<seq<ResourceConfig>>)
    requires AreInstances(templates, instances, parts)
    requires forall t, c :: t in templates && c in t.resources ==> AllOneFormat(c)
    ensures forall c :: c in Flatten(parts) ==> AllOneFormat(c)
  {
    if parts != [] {
      var n := |parts| - 1;
      RuleInParts(templates, instances, parts[..n]);
      assert InstanceMade(templates, instances[n], parts[n]);
      RuleInInstance(templates, instances[n], parts[n]);
    }
  }

  lemma {:induction false} FindFrom(templates: seq<TemplateConfig>, ident: string)
    ensures Find(templates, ident).Some? ==> Find(templates, ident).value in templates
  {
    if templates != [] && templates[0].ident != ident {
      FindFrom(templates[1..], ident);
    }
  }

  /** What holds of the commands that were read holds of every resource after expansion. */
  lemma RuleSurvivesExpansion(
    resources: seq<ResourceConfig>, templates: seq<TemplateConfig>, instances: seq<TemplateInstance>,
    parts: seq<seq<ResourceConfig>>)
    requires AreInstances(templates, instances, parts)
    requires forall c :: c in resources ==> AllOneFormat(c)
    requires forall t, c :: t in templates && c in t.resources ==> AllOneFormat(c)
    ensures forall c :: c in resources + Flatten(parts) ==> AllOneFormat(c)
  {
    RuleInParts(templates, instances, parts);
  }
}
